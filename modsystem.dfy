/** The server-side state machine of the mod: the schedule it owns, its warning
    de-duplication set and its last-triggered stamp, driven by the one-second
    poll, by player joins and by the console commands. The network channel is a
    log of packets (`broadcasts` to everyone, `sent` to single players), the
    save game is one slot, and every StartForeshockSequence call is recorded in
    `launches`. */
module ModSystem {
  import opened Wrappers
  import opened GameMath
  import opened Calendar
  import opened Config
  import opened Schedule
  import opened Warnings
  import opened World
  import Rand

  datatype PacketType = Warning | Foreshock | Complete

  /** The wire record; its type string is modelled as an enumeration. */
  datatype NotificationPacket = NotificationPacket(kind: PacketType, magnitude: int, daysUntil: int, count: int)

  /** The warning key "YYYY-MM-DD-Dn", kept as its components. */
  datatype WarnStamp = WarnStamp(year: int, month: int, day: int, daysUntil: int)

  /** The trigger key "YYYY-MM-DD-HH", kept as its components. */
  datatype HourStamp = HourStamp(year: int, month: int, day: int, hour: int)

  datatype Player = Player(id: int, pos: Pos)

  /** One StartForeshockSequence call: the centre, the magnitude, and whether the
      quake reports completion to everyone. */
  datatype Launch = Launch(center: Pos, magnitude: int, broadcastOnFinish: bool)

  /** The save-game entry under the schedule key: absent, present but not
      deserialisable, or a stored schedule. */
  datatype SaveSlot = NoData | Unreadable | Stored(saved: EarthquakeSchedule)

  /** A schedule that EnsureScheduleCurrent and GenerateScheduleForCurrentYear keep. */
  predicate CurrentFor(s: EarthquakeSchedule, year: int) {
    s.year == year && |s.events| > 0
  }

  predicate UsesUserSchedule(cfg: EarthquakeConfig) {
    cfg.enableScheduledEvents && |cfg.userSchedule| > 0
  }

  /** Generation throws: the random branch runs and its magnitude draw
      `rng.Next(MagnitudeMin, MagnitudeMax + 1)` is not a range, because
      MagnitudeMin exceeds MagnitudeMax + 1 (a limit LoadConfig does not enforce). */
  predicate DrawThrows(cfg: EarthquakeConfig) {
    !UsesUserSchedule(cfg) && cfg.magnitudeMin > cfg.magnitudeMax + 1
  }

  /** A freshly generated schedule: stamped with the calendar year and the elapsed
      time, holding either the user schedule copied in order or random events. */
  predicate GeneratedFor(s: EarthquakeSchedule, cfg: EarthquakeConfig, cal: Option<GameCalendar>, nowMs: int) {
    s.year == CalendarYear(cal) && s.lastCheckedTick == nowMs &&
    if UsesUserSchedule(cfg) then
      |s.events| == |cfg.userSchedule| &&
      forall i :: 0 <= i < |s.events| ==> CopiedFrom(s.events[i], cfg.userSchedule[i])
    else
      RandomScheduleBounds(s.events, cal, cfg.eventsPerYear, cfg.magnitudeMin, cfg.magnitudeMax)
  }

  /** The number of quakes wanted for `players` online players:
      clamp(1 + players/10, QuakesPerEventMin, QuakesPerEventMax). */
  function QuakeCount(cfg: EarthquakeConfig, players: nat): int {
    Clamp(1 + players / 10, cfg.quakesPerEventMin, cfg.quakesPerEventMax)
  }

  /** How many foreshock sequences an event launches: the wanted count, but never
      more than there are players (and none for a count below one). */
  function LaunchCount(cfg: EarthquakeConfig, players: nat): (n: int)
    ensures 0 <= n <= players
    ensures n == Max(0, Min(QuakeCount(cfg, players), players))
    ensures LimitsHold(cfg) && players >= 1 ==> n >= 1
    ensures LimitsHold(cfg) && cfg.quakesPerEventMin <= cfg.quakesPerEventMax ==> n <= cfg.quakesPerEventMax
  {
    Max(0, Min(QuakeCount(cfg, players), players))
  }

  function WarningPacket(evt: ScheduledEvent, daysUntil: int): NotificationPacket {
    NotificationPacket(Warning, FirstMagnitude(evt), daysUntil, 0)
  }

  /** One warning check applied to the warned set and the broadcast log: a
      pending warning whose stamp is new is broadcast and its stamp recorded;
      otherwise nothing changes. */
  predicate WarningStep(w: Option<(WarnStamp, NotificationPacket)>,
                        warned0: set<WarnStamp>, warned1: set<WarnStamp>,
                        out0: seq<NotificationPacket>, out1: seq<NotificationPacket>) {
    if w.Some? && w.value.0 !in warned0 then
      warned1 == warned0 + {w.value.0} && out1 == out0 + [w.value.1]
    else
      warned1 == warned0 && out1 == out0
  }

  /** The launches one due event makes: one per chosen player, in shuffled order,
      each with a magnitude from the event's list and a completion broadcast. */
  ghost predicate LaunchesFor(ls: seq<Launch>, players: seq<Player>, due: ScheduledEvent, n: int) {
    |ls| == n &&
    (forall i :: 0 <= i < |ls| ==> ls[i].magnitude in due.magnitudes && ls[i].broadcastOnFinish) &&
    exists order :: Rand.IsPermutation(order, |players|) && |ls| <= |players| &&
      forall i :: 0 <= i < |ls| ==> ls[i].center == players[order[i]].pos
  }

  /** One trigger check at `stamp` applied to the trigger stamp, the broadcast log
      and the launch log: the event due at the stamp's hour fires unless the stamp
      already fired; a firing records the stamp, and with players online it
      broadcasts a foreshock notice and makes the launches. */
  ghost predicate TriggerStep(cfg: EarthquakeConfig, events: seq<ScheduledEvent>, stamp: HourStamp, players: seq<Player>,
                              prior: Option<HourStamp>, after: Option<HourStamp>,
                              out0: seq<NotificationPacket>, out1: seq<NotificationPacket>,
                              launched0: seq<Launch>, launched1: seq<Launch>) {
    var due := FirstDue(events, stamp.month, stamp.day, stamp.hour);
    var fires := prior != Some(stamp) && due.Some?;
    after == (if fires then Some(stamp) else prior) &&
    (fires && |players| > 0 ==>
       out1 == out0 + [NotificationPacket(Foreshock, FirstMagnitude(due.value), 0, 0)] &&
       |launched0| <= |launched1| &&
       launched1[..|launched0|] == launched0 &&
       LaunchesFor(launched1[|launched0|..], players, due.value,
                   if |due.value.magnitudes| == 0 then 0 else LaunchCount(cfg, |players|))) &&
    (!(fires && |players| > 0) ==> out1 == out0 && launched1 == launched0)
  }

  /** The trigger check throws: the stamp is new, an event is due, players are
      online and at least one is chosen, and the event's magnitude list is empty,
      so the first draw `Magnitudes[rng.Next(0)]` indexes past its end. The stamp
      and the foreshock notice are already recorded by then. */
  predicate TriggerThrows(cfg: EarthquakeConfig, events: seq<ScheduledEvent>, stamp: HourStamp,
                          players: seq<Player>, prior: Option<HourStamp>) {
    var due := FirstDue(events, stamp.month, stamp.day, stamp.hour);
    prior != Some(stamp) && due.Some? && |players| > 0 &&
    |due.value.magnitudes| == 0 && LaunchCount(cfg, |players|) > 0
  }

  /** The launch loop of one due event: for each of the first `chosen` shuffled
      players, a magnitude drawn from the event's list. An empty list makes the
      first draw throw (`thrown`), which ends the loop with nothing launched. */
  method DrawLaunches(players: seq<Player>, order: seq<int>, mags: seq<int>, chosen: int)
      returns (made: seq<Launch>, thrown: bool)
    requires Rand.IsPermutation(order, |players|) && chosen <= |players|
    ensures thrown <==> |mags| == 0 && chosen > 0
    ensures |made| == (if |mags| == 0 then 0 else Max(0, chosen))
    ensures forall k :: 0 <= k < |made| ==> made[k].magnitude in mags && made[k].broadcastOnFinish
    ensures forall k :: 0 <= k < |made| ==> made[k].center == players[order[k]].pos
  {
    made, thrown := [], false;
    var i := 0;
    while i < chosen
      invariant 0 <= i && (i <= chosen || i == 0)
      invariant |mags| == 0 ==> i == 0
      invariant thrown == false
      invariant |made| == i
      invariant forall k :: 0 <= k < i ==> made[k].magnitude in mags && made[k].broadcastOnFinish
      invariant forall k :: 0 <= k < i ==> made[k].center == players[order[k]].pos
    {
      var target := players[order[i]];
      if |mags| == 0 {
        // rng.Next(0) is 0 and Magnitudes[0] throws.
        return made, true;
      }
      var pick := Rand.NextBelow(|mags|);
      made := made + [Launch(target.pos, mags[pick], true)];
      i := i + 1;
    }
  }

  class EarthquakeModSystem {
    var cfg: EarthquakeConfig
    var schedule: Option<EarthquakeSchedule>
    var warnedStamps: set<WarnStamp>
    var lastTriggeredStamp: Option<HourStamp>
    var saveGame: SaveSlot
    var broadcasts: seq<NotificationPacket>
    var sent: seq<(int, NotificationPacket)>
    var launches: seq<Launch>
    /** The warnings broadcast since the warned set was last cleared, in order. */
    ghost var warnLog: seq<WarnStamp>

    /** The limits LoadConfig enforces hold, and `warnLog` lists every stamp of the
        warned set exactly once. CheckForUpcomingWarnings appends a stamp to the log
        exactly when it broadcasts that stamp's warning, and only a regeneration
        clears both. */
    ghost predicate Valid()
      reads this
    {
      LimitsHold(cfg) &&
      (forall i, j :: 0 <= i < j < |warnLog| ==> warnLog[i] != warnLog[j]) &&
      (forall s :: s in warnedStamps <==> s in warnLog)
    }

    /** The mod at server start: the configuration loaded (LoadConfig), no
        schedule in memory yet, and the world's save game as found. */
    constructor (loaded: Option<EarthquakeConfig>, save: SaveSlot)
      ensures Valid()
      ensures cfg == EnforceLimits(loaded.GetOr(DefaultConfig))
      ensures schedule == None && warnedStamps == {} && lastTriggeredStamp == None && saveGame == save
      ensures broadcasts == [] && sent == [] && launches == []
    {
      cfg := DefaultConfig;
      schedule := None;
      warnedStamps := {};
      lastTriggeredStamp := None;
      saveGame := save;
      broadcasts := [];
      sent := [];
      launches := [];
      warnLog := [];
      new;
      LoadConfig(loaded);
    }

    /** LoadConfig: the loaded file, or the defaults when there is none, with the
        three limits enforced. */
    method LoadConfig(loaded: Option<EarthquakeConfig>)
      modifies this`cfg
      ensures cfg == EnforceLimits(loaded.GetOr(DefaultConfig))
      ensures LimitsHold(cfg)
    {
      cfg := EnforceLimits(loaded.GetOr(DefaultConfig));
    }

    /** The schedule EnsureScheduleCurrent keeps, if it keeps one: the stored
        schedule when one can be read (it replaces the one in memory), otherwise
        the one in memory; kept only when it is for this year and has events. */
    ghost function KeptSchedule(cal: Option<GameCalendar>): Option<EarthquakeSchedule>
      reads this
    {
      match saveGame
      case Stored(s) => if CurrentFor(s, CalendarYear(cal)) then Some(s) else None
      case _ =>
        if schedule.Some? && CurrentFor(schedule.value, CalendarYear(cal)) then schedule else None
    }

    /** GenerateScheduleForCurrentYear: a no-op when not forced and the schedule in
        memory is current; otherwise a new schedule (user copy or random events),
        the warned set cleared, the schedule stored when the save succeeds, and the
        trigger stamp cleared so the new schedule can fire at once. A throwing
        magnitude draw (`ok` false) escapes before anything is assigned. */
    method GenerateScheduleForCurrentYear(cal: Option<GameCalendar>, forceRegenerate: bool, storeOk: bool, nowMs: int)
        returns (ok: bool)
      requires Valid()
      modifies this
      ensures Valid()
      ensures cfg == old(cfg) && broadcasts == old(broadcasts) && sent == old(sent) && launches == old(launches)
      ensures ok <==> (!forceRegenerate && old(schedule).Some? && CurrentFor(old(schedule).value, CalendarYear(cal))) ||
                      !DrawThrows(cfg)
      ensures !ok || (!forceRegenerate && old(schedule).Some? && CurrentFor(old(schedule).value, CalendarYear(cal))) ==>
                schedule == old(schedule) && warnedStamps == old(warnedStamps) && warnLog == old(warnLog) &&
                lastTriggeredStamp == old(lastTriggeredStamp) && saveGame == old(saveGame)
      ensures ok && !(!forceRegenerate && old(schedule).Some? && CurrentFor(old(schedule).value, CalendarYear(cal))) ==>
                schedule.Some? && GeneratedFor(schedule.value, cfg, cal, nowMs) &&
                warnedStamps == {} && warnLog == [] && lastTriggeredStamp == None &&
                saveGame == (if storeOk then Stored(schedule.value) else old(saveGame))
    {
      var year := CalendarYear(cal);
      if !forceRegenerate && schedule.Some? && schedule.value.year == year && |schedule.value.events| > 0 {
        return true;
      }
      var evs: seq<ScheduledEvent>;
      if cfg.enableScheduledEvents && |cfg.userSchedule| > 0 {
        evs := CopyUserSchedule(cfg.userSchedule);
      } else {
        ghost var attempts;
        ok, evs, attempts := GenerateRandomEvents(cal, cfg.eventsPerYear, cfg.magnitudeMin, cfg.magnitudeMax);
        if !ok {
          return;
        }
      }
      ok := true;
      schedule := Some(EarthquakeSchedule(year, evs, nowMs));
      warnedStamps := {};
      warnLog := [];
      if storeOk {
        saveGame := Stored(schedule.value);
      }
      lastTriggeredStamp := None;
    }

    /** EnsureScheduleCurrent: keep the (stored, else in-memory) schedule when it is
        for this year and has events, otherwise regenerate. Either way the schedule
        afterwards is current. The regeneration's throw (`ok` false) is outside the
        try, so it escapes; a readable stored schedule has replaced the one in
        memory by then. */
    method EnsureScheduleCurrent(cal: Option<GameCalendar>, storeOk: bool, nowMs: int) returns (ok: bool)
      requires Valid()
      modifies this
      ensures Valid()
      ensures cfg == old(cfg) && broadcasts == old(broadcasts) && sent == old(sent) && launches == old(launches)
      ensures ok <==> old(KeptSchedule(cal)).Some? || !DrawThrows(cfg)
      ensures ok ==> schedule.Some? && CurrentFor(schedule.value, CalendarYear(cal))
      ensures ok && (old(KeptSchedule(cal)).Some? || storeOk) ==> KeptSchedule(cal) == schedule
      ensures old(KeptSchedule(cal)).Some? ==>
                schedule == old(KeptSchedule(cal)) && warnedStamps == old(warnedStamps) && warnLog == old(warnLog) &&
                lastTriggeredStamp == old(lastTriggeredStamp) && saveGame == old(saveGame)
      ensures old(KeptSchedule(cal)).None? && ok ==>
                GeneratedFor(schedule.value, cfg, cal, nowMs) &&
                warnedStamps == {} && warnLog == [] && lastTriggeredStamp == None &&
                saveGame == (if storeOk then Stored(schedule.value) else old(saveGame))
      ensures !ok ==>
                schedule == (if old(saveGame).Stored? then Some(old(saveGame).saved) else old(schedule)) &&
                warnedStamps == old(warnedStamps) && warnLog == old(warnLog) &&
                lastTriggeredStamp == old(lastTriggeredStamp) && saveGame == old(saveGame) &&
                KeptSchedule(cal).None?
    {
      var year := CalendarYear(cal);
      match saveGame {
        case Stored(s) =>
          schedule := Some(s);
          if s.year == year && |s.events| > 0 {
            return true;
          }
        case NoData =>
        case Unreadable =>
      }
      ok := GenerateScheduleForCurrentYear(cal, false, storeOk, nowMs);
    }

    /** The warning the current schedule calls for at `now`, with its stamp; it
        does not depend on the warned set. */
    ghost function PendingWarning(cal: Option<GameCalendar>, month: int, day: int, hour: int)
      : Option<(WarnStamp, NotificationPacket)>
      reads this
    {
      if schedule.None? then None
      else
        match FindUpcoming(schedule.value.events, cal, cfg.warningDaysBefore, month, day, hour)
        case None => None
        case Some(u) =>
          Some((WarnStamp(schedule.value.year, u.evt.month, u.evt.day, u.daysUntil),
                WarningPacket(u.evt, u.daysUntil)))
    }

    /** CheckForUpcomingWarnings: broadcast the pending warning unless its stamp was
        already broadcast, and record the stamp. */
    method CheckForUpcomingWarnings(cal: Option<GameCalendar>, year: int, month: int, day: int, hour: int)
      requires Valid()
      modifies this`broadcasts, this`warnedStamps, this`warnLog
      ensures Valid()
      ensures WarningStep(PendingWarning(cal, month, day, hour), old(warnedStamps), warnedStamps,
                          old(broadcasts), broadcasts)
      ensures var w := PendingWarning(cal, month, day, hour);
              if w.Some? && w.value.0 !in old(warnedStamps) then
                warnLog == old(warnLog) + [w.value.0] && broadcasts == old(broadcasts) + [w.value.1]
              else
                warnLog == old(warnLog) && broadcasts == old(broadcasts)
      ensures PendingWarning(cal, month, day, hour).Some? ==> PendingWarning(cal, month, day, hour).value.0 in warnedStamps
      ensures old(warnedStamps) <= warnedStamps
    {
      if schedule.None? {
        return;
      }
      var found := TryFindUpcomingEvent(schedule.value.events, cal, cfg.warningDaysBefore, month, day, hour);
      if found.Some? {
        var upcoming := found.value;
        var warnStamp := WarnStamp(schedule.value.year, upcoming.evt.month, upcoming.evt.day, upcoming.daysUntil);
        if warnStamp in warnedStamps {
          return;
        }
        broadcasts := broadcasts + [WarningPacket(upcoming.evt, upcoming.daysUntil)];
        warnedStamps := warnedStamps + {warnStamp};
        warnLog := warnLog + [warnStamp];
      }
    }

    /** OnPlayerNowPlaying: when a schedule with events is in memory, refresh it and
        send the joining player the upcoming warning directly, whatever the warned
        set says; the warned set is neither consulted nor extended (only a
        regeneration clears it). A throwing regeneration (`ok` false) ends the
        handler before anything is sent. */
    method OnPlayerNowPlaying(cal: Option<GameCalendar>, player: Player, storeOk: bool, nowMs: int) returns (ok: bool)
      requires Valid()
      modifies this
      ensures Valid()
      ensures cfg == old(cfg) && broadcasts == old(broadcasts) && launches == old(launches)
      ensures ok <==> cal.None? || old(schedule).None? || |old(schedule).value.events| == 0 ||
                      old(KeptSchedule(cal)).Some? || !DrawThrows(cfg)
      ensures cal.None? || old(schedule).None? || |old(schedule).value.events| == 0 ==>
                schedule == old(schedule) && sent == old(sent) && warnedStamps == old(warnedStamps) &&
                lastTriggeredStamp == old(lastTriggeredStamp) && saveGame == old(saveGame)
      ensures !ok ==> sent == old(sent) && warnedStamps == old(warnedStamps) &&
                      lastTriggeredStamp == old(lastTriggeredStamp) && saveGame == old(saveGame)
      ensures ok && !(cal.None? || old(schedule).None? || |old(schedule).value.events| == 0) ==>
                schedule.Some? && CurrentFor(schedule.value, CalendarYear(cal)) &&
                warnedStamps == (if old(KeptSchedule(cal)).Some? then old(warnedStamps) else {}) &&
                var now := SafeMonthDayHour(cal);
                var u := FindUpcoming(schedule.value.events, cal, cfg.warningDaysBefore, now.month, now.day, now.hour);
                sent == old(sent) + (if u.Some? then [(player.id, WarningPacket(u.value.evt, u.value.daysUntil))] else [])
    {
      if cal.None? || schedule.None? || |schedule.value.events| == 0 {
        return true;
      }
      ok := EnsureScheduleCurrent(cal, storeOk, nowMs);
      if !ok {
        return;
      }
      var now := SafeMonthDayHour(cal);
      var found := TryFindUpcomingEvent(schedule.value.events, cal, cfg.warningDaysBefore, now.month, now.day, now.hour);
      if found.Some? {
        sent := sent + [(player.id, WarningPacket(found.value.evt, found.value.daysUntil))];
      }
    }

    /** CheckScheduleAndPlayers, the one-second poll: refresh the schedule, run the
        warning check, then fire the event due at this exact hour unless this hour's
        stamp already fired. Once a due event is found the stamp is recorded, even
        with nobody online; with players online a foreshock notice is broadcast and
        min(clamp(1 + players/10, min, max), players) shuffled players each get a
        foreshock sequence with a magnitude drawn from the event's list. An empty
        magnitude list makes the first draw throw after the stamp and the notice
        are recorded, so nothing is launched and `ok` is false. A throwing
        regeneration (`ok` false) ends the poll before the warning check. */
    method CheckScheduleAndPlayers(cal: Option<GameCalendar>, players: seq<Player>, storeOk: bool, nowMs: int)
        returns (ok: bool)
      requires Valid()
      modifies this
      ensures Valid()
      ensures cfg == old(cfg) && sent == old(sent)
      ensures cal.None? ==> ok && unchanged(this)
      ensures cal.Some? && old(KeptSchedule(cal)).None? && DrawThrows(cfg) ==>
                      !ok && broadcasts == old(broadcasts) && launches == old(launches) &&
                      warnedStamps == old(warnedStamps) && lastTriggeredStamp == old(lastTriggeredStamp) &&
                      saveGame == old(saveGame) && KeptSchedule(cal).None?
      ensures cal.Some? && old(KeptSchedule(cal)).Some? ==> KeptSchedule(cal) == schedule
      ensures cal.Some? && !DrawThrows(cfg) && storeOk ==> KeptSchedule(cal) == schedule
      ensures cal.Some? && (old(KeptSchedule(cal)).Some? || !DrawThrows(cfg)) ==>
        var now := SafeMonthDayHour(cal);
        var stamp := HourStamp(now.year, now.month, now.day, now.hour);
        var kept := old(KeptSchedule(cal)).Some?;
        var priorStamp := if kept then old(lastTriggeredStamp) else None;
        var priorWarned := if kept then old(warnedStamps) else {};
        schedule.Some? && CurrentFor(schedule.value, now.year) &&
        (kept ==> schedule == old(KeptSchedule(cal))) &&
        (ok <==> !TriggerThrows(cfg, schedule.value.events, stamp, players, priorStamp)) &&
        exists mid :: WarningStep(PendingWarning(cal, now.month, now.day, now.hour), priorWarned, warnedStamps,
                                  old(broadcasts), mid) &&
                      TriggerStep(cfg, schedule.value.events, stamp, players, priorStamp, lastTriggeredStamp,
                                  mid, broadcasts, old(launches), launches)
    {
      if cal.None? {
        return true;
      }
      ok := EnsureScheduleCurrent(cal, storeOk, nowMs);
      if !ok {
        return;
      }
      var now := SafeMonthDayHour(cal);
      CheckForUpcomingWarnings(cal, now.year, now.month, now.day, now.hour);
      ghost var mid := broadcasts;
      var thrown := FireIfDue(HourStamp(now.year, now.month, now.day, now.hour), players);
      ok := !thrown;
    }

    /** The trigger half of the poll: fire the event due at the stamp's hour unless
        the stamp already fired. The stamp is recorded once a due event is found;
        with players online a foreshock notice is broadcast and the launches made.
        `thrown` reports the magnitude draw on an empty list. */
    method FireIfDue(stamp: HourStamp, players: seq<Player>) returns (thrown: bool)
      requires schedule.Some?
      modifies this`lastTriggeredStamp, this`broadcasts, this`launches
      ensures thrown == TriggerThrows(cfg, schedule.value.events, stamp, players, old(lastTriggeredStamp))
      ensures TriggerStep(cfg, schedule.value.events, stamp, players, old(lastTriggeredStamp), lastTriggeredStamp,
                          old(broadcasts), broadcasts, old(launches), launches)
    {
      if Some(stamp) == lastTriggeredStamp {
        return false;
      }
      var due := FirstDue(schedule.value.events, stamp.month, stamp.day, stamp.hour);
      if due.None? {
        return false;
      }
      lastTriggeredStamp := Some(stamp);
      if |players| == 0 {
        return false;
      }

      var quakeCount := QuakeCount(cfg, |players|);
      var order := Rand.Shuffle(|players|);
      var chosen := Min(quakeCount, |players|);
      broadcasts := broadcasts + [NotificationPacket(Foreshock, FirstMagnitude(due.value), 0, 0)];

      var mags := due.value.magnitudes;
      var made;
      made, thrown := DrawLaunches(players, order, mags, chosen);
      var launchedBefore := launches;
      launches := launches + made;
      assert launches[|launchedBefore|..] == made;
      assert launches[..|launchedBefore|] == launchedBefore;
    }

    /** The test command (`/earthquake test <m>` or `/earthquake <m>`): the magnitude
        clamped to [1,9], a zero-days warning broadcast, and a foreshock sequence at
        the caller's position that does not report completion. */
    method TestCommand(magnitude: int, pos: Pos)
      modifies this`broadcasts, this`launches
      ensures var m := Clamp(magnitude, 1, 9);
              1 <= m <= 9 && (1 <= magnitude <= 9 ==> m == magnitude) &&
              broadcasts == old(broadcasts) + [NotificationPacket(Warning, m, 0, 0)] &&
              launches == old(launches) + [Launch(pos, m, false)]
    {
      var mag := Clamp(magnitude, 1, 9);
      broadcasts := broadcasts + [NotificationPacket(Warning, mag, 0, 0)];
      launches := launches + [Launch(pos, mag, false)];
    }

    /** Two warning checks at the same moment broadcast at most one warning. */
    method CheckWarningsTwice(cal: Option<GameCalendar>, year: int, month: int, day: int, hour: int)
      requires Valid()
      modifies this`broadcasts, this`warnedStamps, this`warnLog
      ensures Valid()
      ensures |old(broadcasts)| <= |broadcasts| <= |old(broadcasts)| + 1
      ensures broadcasts[..|old(broadcasts)|] == old(broadcasts)
    {
      CheckForUpcomingWarnings(cal, year, month, day, hour);
      CheckForUpcomingWarnings(cal, year, month, day, hour);
    }

    /** With a working save game, refreshing the schedule twice in one year gives
        the same schedule both times, and the second refresh throws exactly when
        the first did. */
    method EnsureScheduleCurrentTwice(cal: Option<GameCalendar>, nowMs: int)
        returns (firstOk: bool, secondOk: bool, first: Option<EarthquakeSchedule>, second: Option<EarthquakeSchedule>)
      requires Valid()
      modifies this
      ensures firstOk == secondOk && first == second
      ensures firstOk ==> first.Some? && CurrentFor(first.value, CalendarYear(cal))
    {
      firstOk := EnsureScheduleCurrent(cal, true, nowMs);
      first := schedule;
      secondOk := EnsureScheduleCurrent(cal, true, nowMs);
      second := schedule;
    }

    /** With a working save game, a second poll in the same hour launches nothing. */
    method PollTwiceInOneHour(cal: Option<GameCalendar>, players: seq<Player>, nowMs: int)
        returns (firstLaunches: seq<Launch>, secondLaunches: seq<Launch>)
      requires Valid()
      modifies this
      ensures secondLaunches == []
    {
      var start := launches;
      var firstOk := CheckScheduleAndPlayers(cal, players, true, nowMs);
      var middle := launches;
      firstLaunches := if |start| <= |middle| then middle[|start|..] else [];
      var secondOk := CheckScheduleAndPlayers(cal, players, true, nowMs);
      secondLaunches := launches[|middle|..];
    }
  }
}
