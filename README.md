# Earthquake mod core in Dafny

This project is a Dafny model of the server-side logic of the Vintage Story "Earthquake" mod
(`Earthquake/src/EarthquakeModSystem.cs`). Four groups of behaviour are modelled:

- **Scheduling.** Each in-game year gets a schedule of events, either copied from the user's list or
  drawn at random. The schedule is persisted in the save game and regenerated when it is stale.
- **Warnings.** Upcoming events are warned about up to four in-game days ahead. Each warning is
  broadcast once per stamp of the form (year, month, day, days-until). A joining player gets the
  current warning sent directly.
- **Triggering.** The event due at the current in-game hour fires once per hour stamp. It starts a
  twelve-tick foreshock sequence near min(clamp(1 + players/10, min, max), players) shuffled players.
- **The quake itself.** Parameters are derived from the magnitude. Fault lines are carved into the
  voxel world step by step. Every other step runs a maintenance round:
  - floating blocks are cleaned up;
  - gravel is dropped in a halo;
  - terrain patches are lowered ("shards");
  - trees are felled.

How the model represents the mod:

- **The voxel world.** It is a map from positions to block ids: a missing key is air (id 0). A block
  registry gives each id its material, code path and rock variant, and an id the registry does not
  know stands for a null block.
- **Objects whose fields the mod updates in place are classes:**
  - the mod system (`ModSystem.EarthquakeModSystem`);
  - the block accessor (`World.BlockAccessor`);
  - the two tick-listener sequences (`Sequences.ForeshockSequence`, `Sequences.QuakeRun`).
- **Loops in the source are loops here.** Each grid loop is a `method` proved, cell by cell, equal to
  a specification function of the grid before the call. Lemmas then prove what the mod promises
  about those functions: coverage, frames, monotonicity and counts.
- **Randomness.** `System.Random` draws are nondeterministic choices (`:|`) within the documented
  ranges. A draw that throws (`Next(lo, hi)` with lo > hi) is modelled explicitly as an error result.
- **Trigonometric sample positions** are inputs, as are the values that come from floating-point
  arithmetic: the step count, the halo radius and the ray offsets.
- **Strings.** The hour stamp, the warning stamp and the `picked` date keys are formatted strings in
  the source. Here they are tuples and datatypes, on the reading that the formatting is injective for
  the values that occur.

## Model

| member | source | states |
|---|---|---|
| Calendar.SafeMonthsPerYear | Earthquake/src/EarthquakeModSystem.cs:621-630 | The result is at least 1. It is 12 without a calendar or a readable property, and the calendar's value when that is at least 1. |
| Calendar.SafeDaysInMonth | Earthquake/src/EarthquakeModSystem.cs:632-648 | The result is at least 1. It is the array entry when the per-month array covers the month, and 30 when there is neither an array nor a scalar. Without a calendar it is 1, because `Convert.ToDouble(null)` is 0. |
| Calendar.SafeHoursPerDay | Earthquake/src/EarthquakeModSystem.cs:580 | The exclusive bound of a generated hour: at least 1, and 24 without a calendar. |
| Calendar.SafeMonthDayHour | Earthquake/src/EarthquakeModSystem.cs:607-619 | The year is the calendar's (0 without one). Month and day are at least 1 and the hour at least 0. The day is 1 when the day-of-month property is missing. |
| Calendar.NextMonth | Earthquake/src/EarthquakeModSystem.cs:114-118 | The next month is month + 1, or 1 once it passes the months per year. |
| Calendar.Rollover | Earthquake/src/EarthquakeModSystem.cs:107-120 | The rolled day never exceeds the starting day or its month's length, and stays at least 1 for a positive day. |
| Calendar.RolloverInRange | Earthquake/src/EarthquakeModSystem.cs:107-120 | From a real date and any offset, the rolled-over (month, day) is a real date: 1 ≤ month ≤ monthsPerYear and 1 ≤ day ≤ daysInMonth(month). The rollover terminates. |
| Calendar.RolloverWithinMonth | Earthquake/src/EarthquakeModSystem.cs:111 | A day inside its month is not rolled. |
| Config.EnforceLimits | Earthquake/src/EarthquakeModSystem.cs:300-310 | Events per year end in [1,3], the quake maximum in [1,4] and warning days in [1,4]. Every other field is kept, and an in-range config is unchanged. |
| Config.EnforceLimitsIdempotent | Earthquake/src/EarthquakeModSystem.cs:308-310 | Enforcing the limits twice equals enforcing them once. |
| Warnings.MaxLookahead | Earthquake/src/EarthquakeModSystem.cs:103 | The lookahead lies in [1,4] and equals WarningDaysBefore when that is in range. |
| Warnings.FirstOnDateFrom | Earthquake/src/EarthquakeModSystem.cs:123 | Returns an index at or after `from` whose event is on the date, with no earlier such index. None means no event at or after `from` is on the date. |
| Warnings.FirstOnDate | Earthquake/src/EarthquakeModSystem.cs:123 | `FirstOrDefault` on a (month, day): the first list entry on that date, or none if no entry is on it. |
| Warnings.EventAt | Earthquake/src/EarthquakeModSystem.cs:107-129 | The reported event is in the schedule and lies on the rolled-over date for its offset. |
| Warnings.ScanFrom | Earthquake/src/EarthquakeModSystem.cs:105-132 | Returns the smallest acceptable offset in [da, maxDays], with that offset's first event. None means no offset in the range is acceptable. |
| Warnings.FindUpcoming | Earthquake/src/EarthquakeModSystem.cs:98-135 | On success, 0 ≤ daysUntil ≤ clamp(WarningDaysBefore,1,4). The event is the first on its rolled date, and no smaller offset is acceptable. At offset 0 the event's hour is not yet past. On failure, no offset in the window is acceptable. |
| Warnings.RollDate | Earthquake/src/EarthquakeModSystem.cs:107-120 | The rollover `while` returns exactly Rollover of the starting month and day. |
| Warnings.TryFindUpcomingEvent | Earthquake/src/EarthquakeModSystem.cs:98-135 | The loop with its inner rollover `while` returns exactly FindUpcoming. |
| Warnings.TodayAheadIsFound | Earthquake/src/EarthquakeModSystem.cs:123-131 | An event that is on today's date, first for that date and not yet past is reported with 0 days to go. |
| Warnings.OnlyFirstSameDayEventIsHourChecked | Earthquake/src/EarthquakeModSystem.cs:123-127 | Suppose the first event of today is past and a later one today is still ahead. Then offset 0 yields nothing. |
| Warnings.FoundDateInRange | Earthquake/src/EarthquakeModSystem.cs:107-130 | A reported event lies on a real calendar date. |
| Schedule.FirstMagnitude | Earthquake/src/EarthquakeModSystem.cs:364 | The first magnitude of the list, or 0 (`default(int)`) for an empty list. |
| Schedule.FirstDueFrom | Earthquake/src/EarthquakeModSystem.cs:331 | Returns the first index at or after `from` whose event matches month, day and hour. None means no index from there matches. |
| Schedule.FirstDue | Earthquake/src/EarthquakeModSystem.cs:331 | The due event is in the list and matches exactly; none means no event matches. |
| Schedule.CopyUserSchedule | Earthquake/src/EarthquakeModSystem.cs:540-552 | The copy has the same length as the user schedule and copies each entry field by field, in order. |
| Schedule.TargetEventCount | Earthquake/src/EarthquakeModSystem.cs:559 | clamp(EventsPerYear, 1, 3) lies in [1,3]. |
| Schedule.DrawMonth | Earthquake/src/EarthquakeModSystem.cs:565-566 | The drawn month is in [1, max(monthsPerYear, 4)], and in [1, monthsPerYear] when there are at least 4 months. |
| Schedule.GenerateRandomEvents | Earthquake/src/EarthquakeModSystem.cs:555-590 | `ok` is false exactly when MagnitudeMin > MagnitudeMax + 1, where `Next(min, max + 1)` throws on the first magnitude draw; then no events are returned. Otherwise there are between 1 and clamp(EventsPerYear,1,3) events, with pairwise distinct (month, day). Each date is a generated date. Each event has an hour in [0, hoursPerDay) and 1–4 magnitudes from `Next(min, max + 1)`. There are at most 10·count attempts. |
| ModSystem.LaunchCount | Earthquake/src/EarthquakeModSystem.cs:338-341 | n = max(0, min(clamp(1 + players/10, min, max), players)), with 0 ≤ n ≤ players. Under the loaded limits: n ≥ 1 when someone is online, and n ≤ QuakesPerEventMax when min ≤ max. |
| ModSystem.DrawLaunches | Earthquake/src/EarthquakeModSystem.cs:345-351 | Launches one sequence for each of the first `chosen` shuffled players, at that player's position. Each magnitude comes from the event's list, and each asks for a completion notice. An empty list launches nothing, and `thrown` is true exactly when that list is empty and at least one player is chosen, as `Magnitudes[rng.Next(0)]` throws. |
| ModSystem.EarthquakeModSystem.constructor | Earthquake/src/EarthquakeModSystem.cs:73-75 | The mod starts with the config loaded and limited, no schedule, an empty warned set and no trigger stamp. |
| ModSystem.EarthquakeModSystem.LoadConfig | Earthquake/src/EarthquakeModSystem.cs:294-312 | The config becomes the loaded file, or the defaults when there is none, with the three limits enforced. |
| ModSystem.EarthquakeModSystem.GenerateScheduleForCurrentYear | Earthquake/src/EarthquakeModSystem.cs:530-605 | When not forced and the schedule is current, nothing changes. Otherwise the schedule becomes the user copy or random events, stamped with the year and the time. The warned set and the trigger stamp are cleared. The save game holds the new schedule when the store succeeds. It fails (`ok` false, nothing changed) exactly when it must generate randomly and the magnitude draw throws. |
| ModSystem.EarthquakeModSystem.EnsureScheduleCurrent | Earthquake/src/EarthquakeModSystem.cs:510-528 | A readable stored schedule replaces the one in memory. It is kept, with the warned set and stamps untouched, when it is for this year and has events; otherwise the schedule is regenerated with the effects above. On success the schedule is current afterwards. It fails exactly when nothing is kept and regeneration throws; then only the stored schedule has replaced the one in memory. |
| ModSystem.EarthquakeModSystem.CheckForUpcomingWarnings | Earthquake/src/EarthquakeModSystem.cs:354-373 | A pending warning whose stamp is new is broadcast once and its stamp recorded. Otherwise nothing changes. The warned set only grows. The stamp is appended to the warning log exactly when its packet is broadcast, so each stamp in the set was broadcast once since the last clear. |
| ModSystem.EarthquakeModSystem.OnPlayerNowPlaying | Earthquake/src/EarthquakeModSystem.cs:78-97 | With a calendar and a non-empty schedule, the schedule is refreshed and the joining player is sent FindUpcoming's warning. No broadcast is made and the warned set is not used; it changes only when the refresh regenerates the schedule. Otherwise nothing changes. A throwing refresh (`ok` false) ends the handler with nothing sent. |
| ModSystem.EarthquakeModSystem.CheckScheduleAndPlayers | Earthquake/src/EarthquakeModSystem.cs:314-352 | The schedule is refreshed and the warning check runs. A due event fires only when this hour's stamp is new. A firing records the stamp even with nobody online. With players online it broadcasts a foreshock notice and launches LaunchCount shuffled players with magnitudes from the event. Without a calendar nothing changes. A throwing refresh (`ok` false) ends the poll with no warning, trigger or launch. After a successful refresh, `ok` is false exactly when the magnitude draw on an empty list throws; the state up to that draw is as stated above. |
| ModSystem.EarthquakeModSystem.FireIfDue | Earthquake/src/EarthquakeModSystem.cs:326-351 | The hour's trigger fires when its stamp differs from the last one and the schedule has an event at that month, day and hour. The first such event is used. Firing records the stamp. With players online it appends one foreshock notice carrying the first magnitude (0 for an empty list). It then launches LaunchCount shuffled players, each with a magnitude from the event, or none when the event has no magnitudes. Otherwise the notices and launches are unchanged, and so is the stamp when nothing fires. `thrown` is true exactly when a firing with players online and at least one launch meets an empty magnitude list; the stamp and the notice are already recorded by then. |
| ModSystem.EarthquakeModSystem.TestCommand | Earthquake/src/EarthquakeModSystem.cs:219-222 | The magnitude is clamped to [1,9] (kept when in range). A zero-day warning is broadcast and a foreshock is started without a completion notice. |
| ModSystem.EarthquakeModSystem.CheckWarningsTwice | Earthquake/src/EarthquakeModSystem.cs:354-373 | Two checks at the same moment broadcast at most one warning and keep the earlier broadcasts. |
| ModSystem.EarthquakeModSystem.EnsureScheduleCurrentTwice | Earthquake/src/EarthquakeModSystem.cs:510-528 | With a working save game, two refreshes in one year leave the same schedule, and the second throws exactly when the first did. |
| ModSystem.EarthquakeModSystem.PollTwiceInOneHour | Earthquake/src/EarthquakeModSystem.cs:314-334 | With a working save game, a second poll in the same hour launches nothing, whether or not the first refresh threw. |
| Rand.Next | Earthquake/src/EarthquakeModSystem.cs:417 | `Random.Next(lo, hi)` returns lo ≤ r < hi, and lo when lo = hi. |
| Rand.NextBelow | Earthquake/src/EarthquakeModSystem.cs:349 | `Random.Next(n)` returns 0 ≤ r < n, and 0 for n = 0. |
| Rand.Shuffle | Earthquake/src/EarthquakeModSystem.cs:340 | `OrderBy(rand.Next())` yields a permutation of the player indices. |
| QuakeParams.QuakeRadius | Earthquake/src/EarthquakeModSystem.cs:437 | The radius lies in [16,120] and is 12 + 8m for m in [1,9]. |
| QuakeParams.QuakeDepth | Earthquake/src/EarthquakeModSystem.cs:438 | The depth lies in [8,60] and is 6 + 6m for m in [1,9]. |
| QuakeParams.RadiusDepthMonotone | Earthquake/src/EarthquakeModSystem.cs:437-438 | Radius and depth are non-decreasing in the magnitude. |
| QuakeParams.QuakeSteps | Earthquake/src/EarthquakeModSystem.cs:440 | The step count is at least 1, and equals the ceiling when that is positive. |
| QuakeParams.FaultCount | Earthquake/src/EarthquakeModSystem.cs:460 | The fault count is in [1,6], and is 1 + m/2 for m in [0,9]. |
| QuakeParams.FaultWidth | Earthquake/src/EarthquakeModSystem.cs:473 | The width is in [1,4], and is (m ≥ 7 ? 2 : 1) + i % 2 (the clamp never bites). |
| QuakeParams.LootPoints | Earthquake/src/EarthquakeModSystem.cs:447 | There are at least 3 loot points, and radius/20 of them from radius 60 up. |
| QuakeParams.LootPerPoint | Earthquake/src/EarthquakeModSystem.cs:443-454 | Each loot point spawns (GoodiesPerEventMin + 8m) / lootPoints items: between 0 and the whole budget when the budget is not negative. |
| QuakeParams.LootWithinBudget | Earthquake/src/EarthquakeModSystem.cs:443-455 | The loot points together never spawn more than GoodiesPerEventMin + 8m items. |
| QuakeParams.LootShortfallAtNine | Earthquake/src/EarthquakeModSystem.cs:443-455 | With the defaults, magnitude 9 spawns 4 · 25 = 100 items, below the budget of 102. |
| QuakeParams.ForeshockRays | Earthquake/src/EarthquakeModSystem.cs:412 | The ray count is in [2,6], and is 2 + m/3 for m in [0,12]. |
| QuakeParams.FloaterRadius | Earthquake/src/EarthquakeModSystem.cs:489 | (int)(radius · 0.9) lies in [0, radius]. |
| QuakeParams.BuildFaultPlans | Earthquake/src/EarthquakeModSystem.cs:460-477 | FaultCount plans. Plan i carries the quake's centre, radius, depth and magnitude, and FaultWidth(m, i). |
| QuakeParams.RoundHalfEven | Earthquake/src/EarthquakeModSystem.cs:742-743 | `Math.Round(num/den)`: within half of num/den, with an exact half going to the even neighbour. |
| QuakeParams.RoundHalfEvenMonotone | Earthquake/src/EarthquakeModSystem.cs:742-743 | Rounding is monotone. |
| QuakeParams.RoundExact | Earthquake/src/EarthquakeModSystem.cs:742-743 | Rounding an exact multiple gives the quotient. |
| QuakeParams.CarveRange | Earthquake/src/EarthquakeModSystem.cs:739-744 | Each step samples the radii [r0, r1), with r1 > r0. |
| QuakeParams.CarveStartMonotone | Earthquake/src/EarthquakeModSystem.cs:739-744 | r0 is non-decreasing in the step. |
| QuakeParams.CarveEnds | Earthquake/src/EarthquakeModSystem.cs:739-744 | Step 0 starts at radius 0, and step N would start at radius R. |
| QuakeParams.CarveChained | Earthquake/src/EarthquakeModSystem.cs:739-744 | Each step ends at or beyond where the next begins. |
| QuakeParams.CarveCovers | Earthquake/src/EarthquakeModSystem.cs:739-747 | Every radius in [0, R) is sampled by one of the steps 0..N-1, so there are no gaps. |
| QuakeParams.CoversFrom | Earthquake/src/EarthquakeModSystem.cs:739-747 | Every radius between step s's start and R is sampled by one of the steps s..N-1. |
| QuakeParams.CarveBounded | Earthquake/src/EarthquakeModSystem.cs:739-747 | For steps below N, r0 lies in [0, R] and r1 ≤ R + 1. |
| QuakeParams.CarveReachesRim | Earthquake/src/EarthquakeModSystem.cs:742-744 | With more steps than radii a late step samples radius R itself: (1, 2) for R = 1, step 3 of 4. |
| World.IsCarvable | Earthquake/src/EarthquakeModSystem.cs:775-785 | Only a non-null block can be carved, and never one of air, snow, ice, plant, leaves, wood or another material. |
| World.BlockAccessor.SetBlock | Earthquake/src/EarthquakeModSystem.cs:769 | Writes one cell and leaves every other cell unchanged. |
| Carving.CarveWindow | Earthquake/src/EarthquakeModSystem.cs:753-759 | topY = min(cy + 10, mapSizeY - 3). bottomY comes from the magnitude-dependent limit clamped to [2, topY - 2], and lies in that range when topY ≥ 4. |
| Carving.ClearCarvableColumn | Earthquake/src/EarthquakeModSystem.cs:424-429 | Clears exactly the carvable cells of the column between the two heights; every other cell is unchanged. |
| Carving.ClearCarvableDisk | Earthquake/src/EarthquakeModSystem.cs:761-771 | Clears exactly the carvable cells with |dx|,|dz| ≤ w, dx² + dz² ≤ w² and a height in the window; every other cell is unchanged. |
| Carving.CarveStep | Earthquake/src/EarthquakeModSystem.cs:735-773 | A cell is cleared exactly when it is carvable before the step, lies in the window, and lies in the width disk of one of the step's sample columns. Nothing else changes. |
| Carving.ForeshockHintCut | Earthquake/src/EarthquakeModSystem.cs:408-432 | clamp(2 + m/3, 2, 6) rays, each with a length in [12,17] and a depth in [1,2]. A cell is cleared exactly when a ray crosses it and it was carvable. Nothing else changes. |
| Floaters.CleanedCell | Earthquake/src/EarthquakeModSystem.cs:798-842 | A cell either keeps its block or becomes air. It changes only inside the cleanup box and only with air or a null block below it. |
| Floaters.CleanupColumn | Earthquake/src/EarthquakeModSystem.cs:807-840 | The top-down scan of one column clears exactly the floaters of the grid before the scan. |
| Floaters.CleanupFloaters | Earthquake/src/EarthquakeModSystem.cs:798-842 | Every cell ends as CleanedCell of the grid before the call. |
| Floaters.OnlyBottomOfStackRemoved | Earthquake/src/EarthquakeModSystem.cs:807-839 | Of two stacked floating stones, one pass removes only the lower one. |
| Surface.SurfaceScan | Earthquake/src/EarthquakeModSystem.cs:913-920 | Returns the highest surface in (1, y]. When there is none, it returns max(2, fromY). |
| Surface.FindSurfaceY | Earthquake/src/EarthquakeModSystem.cs:910-921 | The loop returns exactly the scan from min(fromY, mapSizeY - 2). |
| Surface.IsLikelyInterior | Earthquake/src/EarthquakeModSystem.cs:1062-1071 | True exactly when every one of the max(1, InteriorScanHeight) cells above is non-air. |
| Surface.NearbyRock | Earthquake/src/EarthquakeModSystem.cs:680-690 | Returns the first non-empty rock variant from dy = 2 down to dy = -8, or "granite" when every one is empty. The result is never empty. |
| Surface.HaloFillsOnlyAir | Earthquake/src/EarthquakeModSystem.cs:859-868 | The halo only turns air cells into gravel. |
| Surface.GravelHaloBurst | Earthquake/src/EarthquakeModSystem.cs:844-870 | With a gravel type and a drawable radius, it drops max(20, radius) gravel blocks in order onto the surfaces it finds. Without gravel, or when `Next(max(6, r/3), r)` throws, the grid is unchanged; `ok` reports the throw. |
| Shards.MoveDownCount | Earthquake/src/EarthquakeModSystem.cs:899-904 | Moving one block down never increases a column's block count over heights 2..top. |
| Shards.ColumnLowerCount | Earthquake/src/EarthquakeModSystem.cs:897-905 | Lowering one column never increases any column's block count. |
| Shards.ColumnLowerFrame | Earthquake/src/EarthquakeModSystem.cs:897-905 | Lowering a column writes only that column, between height 2 and the top. |
| Shards.RowLowerCount | Earthquake/src/EarthquakeModSystem.cs:894-905 | The dz loop never increases any column's block count. |
| Shards.RowLowerFrame | Earthquake/src/EarthquakeModSystem.cs:894-905 | The dz loop writes only its row's disk columns, between height 2 and the top. |
| Shards.PatchLowerCount | Earthquake/src/EarthquakeModSystem.cs:893-906 | One patch never increases any column's block count. |
| Shards.PatchLowerFrame | Earthquake/src/EarthquakeModSystem.cs:893-906 | One patch writes only columns in its disk dx² + dz² ≤ pr², between height 2 and the top. |
| Shards.LowerColumn | Earthquake/src/EarthquakeModSystem.cs:897-905 | The y loop computes ColumnLower. |
| Shards.LowerPatch | Earthquake/src/EarthquakeModSystem.cs:893-906 | The dx/dz/y loops compute PatchLower. |
| Shards.ShardPatchTotal | Earthquake/src/EarthquakeModSystem.cs:876 | There are at least 2 patches, and count·mag/9 of them when that is 2 or more. |
| Shards.ShardBottom | Earthquake/src/EarthquakeModSystem.cs:891 | The bottom of the window is at least 2. |
| Shards.ShardTop | Earthquake/src/EarthquakeModSystem.cs:890 | The top of the window is min(cy + 8, mapSizeY - 3): never above cy + 8 and always below mapSizeY - 2. |
| Shards.PolarOffset | Earthquake/src/EarthquakeModSystem.cs:886-887 | The truncated polar offset lies in the disk of the drawn distance. |
| Shards.LowerTerrainShards | Earthquake/src/EarthquakeModSystem.cs:872-908 | The grid ends as the drawn patches applied in order. All max(2, count·mag/9) patches are applied exactly when no draw throws. `Next(6, radius - pr - 2)` throws when radius - pr - 2 < 6, and the drop draw when ShardLowerMin > ShardLowerMax + 1. Each patch's radius, distance and drop lie in their drawn ranges. |
| Shards.ShardsNeverAddBlocks | Earthquake/src/EarthquakeModSystem.cs:876-905 | With drops of at least 1, no column gains blocks over heights 2..top. |
| Shards.ShardsFrame | Earthquake/src/EarthquakeModSystem.cs:876-905 | Cells below height 2, above the window, or in a column outside every patch disk are unchanged. |
| Shards.DrawnDropsPositive | Earthquake/src/EarthquakeModSystem.cs:888 | With ShardLowerMin ≥ 1, every drawn drop is at least 1. |
| Trees.TopSolid | Earthquake/src/EarthquakeModSystem.cs:1083-1088 | The highest non-null, non-air block between cy - 20 (exclusive) and cy + 20, or cy - 20 when there is none. |
| Trees.FirstWood | Earthquake/src/EarthquakeModSystem.cs:1091-1098 | The first log or wood block scanning up below the limit, with only non-null, non-air, non-wood blocks before it. |
| Trees.RunHeight | Earthquake/src/EarthquakeModSystem.cs:1101-1109 | The run stays below the limit, holds only tree parts, and is at least 1 when the start is a tree part. |
| Trees.TreeRun | Earthquake/src/EarthquakeModSystem.cs:1083-1111 | A felled run starts at a wood block at or above cy - 20, is at least 1 high, is made of tree parts, and ends below mapSizeY - 1. |
| Trees.FelledCell | Earthquake/src/EarthquakeModSystem.cs:1073-1129 | A cell keeps its block or becomes air. It changes only inside the square, and only when it held a tree part. |
| Trees.FindTopSolid | Earthquake/src/EarthquakeModSystem.cs:1083-1088 | The loop computes TopSolid. |
| Trees.FindFirstWood | Earthquake/src/EarthquakeModSystem.cs:1091-1098 | The loop computes FirstWood. |
| Trees.MeasureRun | Earthquake/src/EarthquakeModSystem.cs:1101-1109 | The loop computes RunHeight. |
| Trees.CollapseColumn | Earthquake/src/EarthquakeModSystem.cs:1082-1125 | Clears exactly the column's TreeRun; nothing else changes. |
| Trees.CollapseTreesInRadius | Earthquake/src/EarthquakeModSystem.cs:1073-1129 | Every cell ends as FelledCell of the grid before the call. |
| Loot.TableForPreshock | Earthquake/src/EarthquakeModSystem.cs:666-671 | A defined, non-empty table: "preshock_" + weak (m ≤ 2), medium (m ≤ 5) or strong. |
| Loot.TableForQuake | Earthquake/src/EarthquakeModSystem.cs:673-678 | A defined, non-empty table: "quake_" + the same tier. |
| Loot.TierMonotone | Earthquake/src/EarthquakeModSystem.cs:666-678 | A stronger magnitude never gets a weaker tier. |
| Loot.ExpandCodesWithRock | Earthquake/src/EarthquakeModSystem.cs:692-699 | The result has the same length and order, with each code expanded. |
| Loot.ExpandedHasNoPlaceholder | Earthquake/src/EarthquakeModSystem.cs:696 | For a rock name without '{', no placeholder is left after expansion. |
| Loot.ExpandCodeLength | Earthquake/src/EarthquakeModSystem.cs:696-697 | A code without the placeholder is unchanged. Otherwise the length changes by (|rock| - 6) per occurrence. |
| Strings.ReplaceAll | Earthquake/src/EarthquakeModSystem.cs:696 | `String.Replace`: a string without an occurrence of the pattern is unchanged, and so is every string when the pattern is replaced by itself. |
| Colors.Rgba | Earthquake/src/EarthquakeModSystem.cs:1012 | The low byte of the packed colour is blue's low byte; with the colour channels in [0,255], the top byte is alpha's low byte. |
| Colors.ChannelsUnpack | Earthquake/src/EarthquakeModSystem.cs:1012 | Each channel in [0,255] can be read back from its byte of the packed colour. |
| Colors.SignBitIsHighAlpha | Earthquake/src/EarthquakeModSystem.cs:1012 | The packed int is negative exactly when alpha ≥ 128. |
| Colors.AlphaWraps | Earthquake/src/EarthquakeModSystem.cs:1012 | `a << 24` keeps only alpha's low 8 bits. |
| Colors.PackedExamples | Earthquake/src/EarthquakeModSystem.cs:942-971 | The chip colour Rgba(255,255,255,255) is -1, and the dust colour Rgba(80,120,110,100) is 0x50786E64. |
| Sequences.ForeshockSpawn | Earthquake/src/EarthquakeModSystem.cs:394-396 | Each tick spawns loot from the tier's preshock table, over radius max(12, EventNearPlayerRadius/10), with at most half of GoodiesPerEventMin items. |
| Sequences.ForeshockSequence.constructor | Earthquake/src/EarthquakeModSystem.cs:389-391 | The sequence starts at step 0 with its listener registered. |
| Sequences.ForeshockSequence.Tick | Earthquake/src/EarthquakeModSystem.cs:391-405 | A tick makes the hint cut and spawns loot. It returns the drawn ray lengths in [12,17] and depths in [1,2]. A cell is cleared exactly when one of those rays crosses it and it was carvable. The step grows by one, and the twelfth tick unregisters the listener and triggers the quake. |
| Sequences.RunForeshock | Earthquake/src/EarthquakeModSystem.cs:389-405 | A fresh foreshock runs exactly 12 ticks and triggers the quake exactly once. |
| Sequences.MaintenanceRunsHalf | Earthquake/src/EarthquakeModSystem.cs:487 | Among n steps the maintenance runs on ceil(n/2) of them, and at least once when n ≥ 1. |
| Sequences.CarveAll | Earthquake/src/EarthquakeModSystem.cs:483 | After all plans carve, a cell is cleared exactly when one plan's region holds it and it was carvable before the step. |
| Sequences.CompletePacket | Earthquake/src/EarthquakeModSystem.cs:502 | The completion notice has count 1 and the quake's magnitude. |
| Sequences.QuakeRun.constructor | Earthquake/src/EarthquakeModSystem.cs:434-481 | The quake is set up with the derived radius, step count and fault plans, at step 0 with its listener registered. |
| Sequences.Maintenance | Earthquake/src/EarthquakeModSystem.cs:487-493 | An even step's upkeep runs in order: floater cleanup within 9/10 of the radius, the gravel halo, shard lowering when enabled, then tree collapse. Each grid is stated by its phase's specification. The upkeep succeeds exactly when the halo guard holds and, with lowering on, every shard patch was drawn. A failing phase leaves the grid as the phase before it left it. |
| Sequences.QuakeRun.Tick | Earthquake/src/EarthquakeModSystem.cs:481-505 | Each phase's grid is stated by its operation's specification. Every plan carves. On even steps floater cleanup, the halo, shard lowering (when enabled) and tree collapse follow, in that order. A throwing draw stops the tick before the step count moves. The last step unregisters the listener and, when asked to, yields the completion notice. |

## Left out

- **Trigonometry and floating point.** The positions given by `Math.Cos`/`Math.Sin` are inputs: the fault
  samples, the ray offsets, the halo and patch offsets. So are values computed with floats: the carving
  step count `ceil(duration / TickSeconds)` and the halo radius `(int)(radius · (0.6 + 0.04m))`. The
  angle jitter and the sound volumes are not modelled.
- `QuakeParams.FloaterRadius`: modelled as `radius · 9 / 10` truncated. The double product `radius * 0.9`
  is taken to agree with it for the radii that occur (16..120).
- **Effects and spawning.** Particles, sounds, item spawning (`SpawnFromTable`, `ResolveByCodes`,
  `RandomSurfaceAround`) and the gravel item spawned at each halo drop are not modelled. A spawn is only
  described by its `Sequences.SpawnRequest`, and `TriggerEarthquake`'s loot loop only by the loot lemmas.
- **Network.** Broadcasts and per-player sends are logs of packets, and client-side chat rendering is not
  modelled.
- **Persistence and the serializer.** The save game is a slot holding no data, unreadable data, or a
  schedule, and a store either succeeds or fails (`storeOk`). The ProtoBuf round trip is not modelled.
- **Reflection.** Calendar probing by reflection becomes an explicit calendar record with optional fields.
  Its doubles are given already rounded the way the mod rounds them.
- **Timers.** Listener registration is a `registered` flag, and each call of the callback is a `Tick`.
- **Chat command parsing.** Only its effect, `TestCommand`, is modelled.
- **Exceptions.** The engine's handling of an exception escaping a tick listener is not modelled: a tick
  that throws ends with `ok` false.
- **Null lists in user schedules.** Config lists are sequences and never null. So the model cannot express two
  throws in `GenerateScheduleForCurrentYear`: a null `UserSchedule` entry throws at line 544 of
  `EarthquakeModSystem.cs`, and a null `Magnitudes` list throws `ArgumentNullException` in `new List<int>(…)`
  at line 549. An empty `Magnitudes` list is modelled; its throw at line 349 is the `ok` false of
  `CheckScheduleAndPlayers`.
- **Null blocks in id-based scans.** `FindSurfaceY` and `IsLikelyInterior` dereference `BlockId` without a
  null check. They read the grid's id here, so a null block (an id the registry lacks) counts as non-air
  instead of throwing.
- **Tree fall direction.** The fall-direction draws in `CollapseTreesInRadius` are never used by the code,
  and the logs are only removed, so nothing about them is modelled.
- `QuakeParams.CarveRange`: the step's radius bounds round the exact quotient R·s/N. C# rounds the double
  `R * ((double)s / N)`, so for some step counts the two differ by one. At R = 84, N = 56 and step 16, for
  example, the double product is 25.499999999999996, giving r1 = 25 where the model gives 26.
- **32-bit overflow in the config.** Config fields are unbounded integers. `MagnitudeMax + 1` wrapping at
  `int.MaxValue` is not modelled.
- `Sequences.QuakeRun.Tick`: the grid after the tree collapse is stated only on steps whose draws all
  succeed; on a throwing step it is stated for the phases that ran.

## Notes on the code

Where the code's behaviour differs from what its comments and documentation say, the model follows the
code:

- **`SafeDaysInMonth`.** Without a calendar it returns 1, not 30: `Convert.ToDouble(null)` is 0.
- **`Magnitudes?.FirstOrDefault() ?? 1`.** This is 0, not 1, for an empty list: the list is never null.
- **Scheduled magnitudes.** They are not clamped to [1,9]; only the chat commands clamp.
- **Random months.** With fewer than 4 months per year, a random month can exceed the months per year.
- **Loot total.** TriggerEarthquake spawns lootPoints · ((goodies + 8m) / lootPoints) items. That can fall
  short of its budget: 100 of 102 at magnitude 9 with the defaults (`QuakeParams.LootShortfallAtNine`).
- **Hint rays.** Their length is drawn from `Next(12, 18)` and their depth from `Next(1, 3)`, so lengths go
  up to 17 and depths up to 2.
- **Carving radius.** When there are more steps than radii, the `r1 = r0 + 1` bump makes a step sample
  radius R itself (`QuakeParams.CarveReachesRim`).
- **`LowerTerrainShards`.** It throws on `Next(6, radius - pr - 2)` for patch radii close to the quake
  radius. With the default config this happens at magnitude 1: radius 20 with pr up to 16.
- **`EnsureScheduleCurrent`.** When a stale schedule is stored and the store of the regenerated one fails,
  a second call regenerates again.
