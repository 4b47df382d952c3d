/** The year's event schedule: its records, the verbatim copy of a user schedule,
    and the random generation of GenerateScheduleForCurrentYear. */
module Schedule {
  import opened Wrappers
  import opened GameMath
  import opened Calendar
  import opened Config
  import Rand

  /** One calendar trigger point; several magnitudes let one event start several quakes. */
  datatype ScheduledEvent = ScheduledEvent(month: int, day: int, hour: int, magnitudes: seq<int>)

  /** The persisted schedule of one in-game year. */
  datatype EarthquakeSchedule = EarthquakeSchedule(year: int, events: seq<ScheduledEvent>, lastCheckedTick: int)

  /** `evt.Magnitudes?.FirstOrDefault() ?? 1`. The list is never null, so the
      `?? 1` never applies and an empty list yields `default(int)`, which is 0. */
  function FirstMagnitude(e: ScheduledEvent): (m: int)
    ensures |e.magnitudes| > 0 ==> m == e.magnitudes[0]
    ensures |e.magnitudes| == 0 ==> m == 0
  {
    if |e.magnitudes| > 0 then e.magnitudes[0] else 0
  }

  predicate IsDue(e: ScheduledEvent, month: int, day: int, hour: int) {
    e.month == month && e.day == day && e.hour == hour
  }

  /** The index of the first event at exactly (month, day, hour), searching from `from`
      (the `FirstOrDefault` of CheckScheduleAndPlayers). */
  function FirstDueFrom(events: seq<ScheduledEvent>, month: int, day: int, hour: int, from: nat): (r: Option<nat>)
    requires from <= |events|
    ensures r.Some? ==> from <= r.value < |events| && IsDue(events[r.value], month, day, hour)
    ensures r.Some? ==> forall j :: from <= j < r.value ==> !IsDue(events[j], month, day, hour)
    ensures r.None? ==> forall j :: from <= j < |events| ==> !IsDue(events[j], month, day, hour)
    decreases |events| - from
  {
    if from == |events| then None
    else if IsDue(events[from], month, day, hour) then Some(from)
    else FirstDueFrom(events, month, day, hour, from + 1)
  }

  /** The first event due at (month, day, hour), if any. */
  function FirstDue(events: seq<ScheduledEvent>, month: int, day: int, hour: int): (r: Option<ScheduledEvent>)
    ensures r.Some? ==> r.value in events && IsDue(r.value, month, day, hour)
    ensures r.None? ==> forall e :: e in events ==> !IsDue(e, month, day, hour)
  {
    match FirstDueFrom(events, month, day, hour, 0)
    case Some(i) => Some(events[i])
    case None => None
  }

  /** A scheduled event copied field for field from a user event. */
  predicate CopiedFrom(e: ScheduledEvent, u: UserScheduledEvent) {
    e.month == u.month && e.day == u.day && e.hour == u.hour && e.magnitudes == u.magnitudes
  }

  /** The user-schedule branch of GenerateScheduleForCurrentYear: every user event,
      in order, copied without any check against the calendar. */
  method CopyUserSchedule(user: seq<UserScheduledEvent>) returns (evs: seq<ScheduledEvent>)
    ensures |evs| == |user|
    ensures forall i :: 0 <= i < |user| ==> CopiedFrom(evs[i], user[i])
  {
    evs := [];
    var i := 0;
    while i < |user|
      invariant 0 <= i <= |user| && |evs| == i
      invariant forall k :: 0 <= k < i ==> CopiedFrom(evs[k], user[k])
    {
      var u := user[i];
      evs := evs + [ScheduledEvent(u.month, u.day, u.hour, u.magnitudes)];
      i := i + 1;
    }
  }

  /** The number of events random generation aims for. */
  function TargetEventCount(eventsPerYear: int): (n: int)
    ensures 1 <= n <= 3
  {
    Clamp(eventsPerYear, 1, 3)
  }

  /** Pairwise-distinct (month, day) pairs: the generator's `HashSet` of date keys. */
  predicate DistinctPairs(ps: seq<(int, int)>) {
    forall i, j :: 0 <= i < j < |ps| ==> ps[i] != ps[j]
  }

  predicate DistinctDates(evs: seq<ScheduledEvent>) {
    forall i, j :: 0 <= i < j < |evs| ==> (evs[i].month, evs[i].day) != (evs[j].month, evs[j].day)
  }

  /** A month the generator can produce: the draw starts the year at month 5 and
      wraps once, so it lies in [1, max(monthsPerYear, 4)], and in
      [1, monthsPerYear] as soon as the calendar has at least 4 months. */
  predicate GeneratedMonth(cal: Option<GameCalendar>, month: int) {
    1 <= month <= Max(SafeMonthsPerYear(cal), 4) &&
    (SafeMonthsPerYear(cal) >= 4 ==> month <= SafeMonthsPerYear(cal))
  }

  predicate GeneratedDate(cal: Option<GameCalendar>, d: (int, int)) {
    GeneratedMonth(cal, d.0) && 1 <= d.1 <= SafeDaysInMonth(cal, d.0)
  }

  /** A magnitude `rng.Next(magMin, magMax + 1)` can return. */
  predicate GeneratedMagnitude(mag: int, magMin: int, magMax: int) {
    if magMin <= magMax then magMin <= mag <= magMax else mag == magMin
  }

  predicate GeneratedEvent(e: ScheduledEvent, cal: Option<GameCalendar>, magMin: int, magMax: int) {
    GeneratedDate(cal, (e.month, e.day)) &&
    0 <= e.hour < SafeHoursPerDay(cal) &&
    1 <= |e.magnitudes| <= 4 &&
    forall m :: m in e.magnitudes ==> GeneratedMagnitude(m, magMin, magMax)
  }

  /** What random generation promises of its result. */
  predicate RandomScheduleBounds(evs: seq<ScheduledEvent>, cal: Option<GameCalendar>, eventsPerYear: int,
                                 magMin: int, magMax: int) {
    1 <= |evs| <= TargetEventCount(eventsPerYear) &&
    DistinctDates(evs) &&
    forall e :: e in evs ==> GeneratedEvent(e, cal, magMin, magMax)
  }

  /** One random month: `5 + rng.Next(monthsPerYear)`, wrapped once past the year's end. */
  method DrawMonth(cal: Option<GameCalendar>) returns (month: int)
    ensures GeneratedMonth(cal, month)
  {
    var monthsPerYear := SafeMonthsPerYear(cal);
    var draw := Rand.NextBelow(monthsPerYear);
    month := 5 + draw;
    if month > monthsPerYear {
      month := month - monthsPerYear;
    }
  }

  /** The random branch of GenerateScheduleForCurrentYear. Up to ten attempts per
      wanted event draw a date; a date already picked is not picked again; the
      loop stops when enough dates are picked or the attempts run out, so the
      count can fall short of the target but is never zero (the first attempt
      always picks). Each date then gets an hour and one to four magnitudes.
      `rng.Next(magMin, magMax + 1)` throws when magMin exceeds magMax + 1; as
      every generated event draws at least one magnitude, that input always
      ends generation with `ok` false and no events. */
  method GenerateRandomEvents(cal: Option<GameCalendar>, eventsPerYear: int, magMin: int, magMax: int)
      returns (ok: bool, evs: seq<ScheduledEvent>, ghost attempts: nat)
    ensures ok <==> magMin <= magMax + 1
    ensures ok ==> RandomScheduleBounds(evs, cal, eventsPerYear, magMin, magMax)
    ensures !ok ==> evs == []
    ensures attempts <= 10 * TargetEventCount(eventsPerYear)
    ensures |evs| <= attempts
  {
    var eventCount := TargetEventCount(eventsPerYear);
    var picked: seq<(int, int)> := [];
    var tries := 0;
    while |picked| < eventCount && tries < eventCount * 10
      invariant 0 <= tries <= eventCount * 10
      invariant |picked| <= tries && |picked| <= eventCount
      invariant tries > 0 ==> |picked| >= 1
      invariant DistinctPairs(picked)
      invariant forall k :: 0 <= k < |picked| ==> GeneratedDate(cal, picked[k])
      decreases eventCount * 10 - tries
    {
      var month := DrawMonth(cal);
      var daysInMonth := SafeDaysInMonth(cal, month);
      var draw := Rand.NextBelow(daysInMonth);
      var day := 1 + draw;
      if (month, day) !in picked {
        picked := picked + [(month, day)];
      }
      tries := tries + 1;
    }
    attempts := tries;

    evs := [];
    var i := 0;
    while i < |picked|
      invariant 0 <= i <= |picked| && |evs| == i
      invariant i > 0 ==> magMin <= magMax + 1
      invariant forall k :: 0 <= k < i ==> (evs[k].month, evs[k].day) == picked[k]
      invariant forall e :: e in evs ==> GeneratedEvent(e, cal, magMin, magMax)
    {
      var (month, day) := picked[i];
      var hour := Rand.Next(0, SafeHoursPerDay(cal));
      var magCount := Rand.Next(1, 5);
      var mags: seq<int> := [];
      var m := 0;
      while m < magCount
        invariant 0 <= m <= magCount && |mags| == m
        invariant m > 0 ==> magMin <= magMax + 1
        invariant forall g :: g in mags ==> GeneratedMagnitude(g, magMin, magMax)
      {
        if magMin > magMax + 1 {
          ok, evs := false, [];
          return;
        }
        var mag := Rand.Next(magMin, magMax + 1);
        mags := mags + [mag];
        m := m + 1;
      }
      evs := evs + [ScheduledEvent(month, day, hour, mags)];
      i := i + 1;
    }
    ok := true;
  }
}
