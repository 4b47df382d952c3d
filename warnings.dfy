/** The upcoming-event search behind the broadcast and join-time warnings. */
module Warnings {
  import opened Wrappers
  import opened GameMath
  import opened Calendar
  import opened Schedule

  /** A found event and how many days ahead it is. */
  datatype Upcoming = Upcoming(evt: ScheduledEvent, daysUntil: int)

  /** The lookahead window: WarningDaysBefore clamped to [1,4]. */
  function MaxLookahead(warningDaysBefore: int): (n: int)
    ensures 1 <= n <= 4
    ensures 1 <= warningDaysBefore <= 4 ==> n == warningDaysBefore
  {
    Clamp(warningDaysBefore, 1, 4)
  }

  predicate OnDate(e: ScheduledEvent, month: int, day: int) {
    e.month == month && e.day == day
  }

  /** The index of the first event on (month, day) at or after `from`, in list order. */
  function FirstOnDateFrom(events: seq<ScheduledEvent>, month: int, day: int, from: nat): (r: Option<nat>)
    requires from <= |events|
    ensures r.Some? ==> from <= r.value < |events| && OnDate(events[r.value], month, day)
    ensures r.Some? ==> forall j :: from <= j < r.value ==> !OnDate(events[j], month, day)
    ensures r.None? ==> forall j :: from <= j < |events| ==> !OnDate(events[j], month, day)
    decreases |events| - from
  {
    if from == |events| then None
    else if OnDate(events[from], month, day) then Some(from)
    else FirstOnDateFrom(events, month, day, from + 1)
  }

  /** `schedule.Events.FirstOrDefault(e => e.Month == m && e.Day == d)`, as an index. */
  function FirstOnDate(events: seq<ScheduledEvent>, month: int, day: int): (r: Option<nat>)
    ensures r.Some? ==> r.value < |events| && OnDate(events[r.value], month, day)
    ensures r.Some? ==> forall j :: 0 <= j < r.value ==> !OnDate(events[j], month, day)
    ensures r.None? ==> forall j :: 0 <= j < |events| ==> !OnDate(events[j], month, day)
  {
    FirstOnDateFrom(events, month, day, 0)
  }

  /** Whether offset `da` yields a warning: some event lies on the rolled date, and
      the FIRST such event (only that one) has not already passed when `da` is 0. */
  predicate Acceptable(events: seq<ScheduledEvent>, cal: Option<GameCalendar>,
                       month: int, day: int, hour: int, da: int) {
    var (m, d) := Rollover(cal, month, day + da);
    var c := FirstOnDate(events, m, d);
    c.Some? && !(da == 0 && events[c.value].hour < hour)
  }

  /** The event a successful offset `da` reports. */
  function EventAt(events: seq<ScheduledEvent>, cal: Option<GameCalendar>,
                   month: int, day: int, hour: int, da: int): (e: ScheduledEvent)
    requires Acceptable(events, cal, month, day, hour, da)
    ensures var (m, d) := Rollover(cal, month, day + da);
            OnDate(e, m, d) && e in events
  {
    var (m, d) := Rollover(cal, month, day + da);
    events[FirstOnDate(events, m, d).value]
  }

  /** The scan over offsets `da`, `da`+1, ..., `maxDays`. */
  function ScanFrom(events: seq<ScheduledEvent>, cal: Option<GameCalendar>, maxDays: int,
                    month: int, day: int, hour: int, da: nat): (r: Option<Upcoming>)
    ensures r.Some? ==> da <= r.value.daysUntil <= maxDays
    ensures r.Some? ==> Acceptable(events, cal, month, day, hour, r.value.daysUntil)
    ensures r.Some? ==> r.value.evt == EventAt(events, cal, month, day, hour, r.value.daysUntil)
    ensures r.Some? ==> forall k :: da <= k < r.value.daysUntil ==> !Acceptable(events, cal, month, day, hour, k)
    ensures r.None? ==> forall k :: da <= k <= maxDays ==> !Acceptable(events, cal, month, day, hour, k)
    decreases maxDays - da + 1
  {
    if da > maxDays then None
    else if Acceptable(events, cal, month, day, hour, da) then
      Some(Upcoming(EventAt(events, cal, month, day, hour, da), da))
    else ScanFrom(events, cal, maxDays, month, day, hour, da + 1)
  }

  /** The result TryFindUpcomingEvent must produce: the nearest offset in
      [0, clamp(WarningDaysBefore,1,4)] whose rolled date holds an acceptable event. */
  function FindUpcoming(events: seq<ScheduledEvent>, cal: Option<GameCalendar>, warningDaysBefore: int,
                        month: int, day: int, hour: int): (r: Option<Upcoming>)
    ensures r.Some? ==> 0 <= r.value.daysUntil <= MaxLookahead(warningDaysBefore)
    ensures r.Some? ==> Acceptable(events, cal, month, day, hour, r.value.daysUntil)
    ensures r.Some? ==> r.value.evt == EventAt(events, cal, month, day, hour, r.value.daysUntil)
    ensures r.Some? ==> r.value.daysUntil == 0 ==> r.value.evt.hour >= hour
    ensures r.Some? ==> forall k :: 0 <= k < r.value.daysUntil ==> !Acceptable(events, cal, month, day, hour, k)
    ensures r.None? ==> forall k :: 0 <= k <= MaxLookahead(warningDaysBefore) ==> !Acceptable(events, cal, month, day, hour, k)
  {
    ScanFrom(events, cal, MaxLookahead(warningDaysBefore), month, day, hour, 0)
  }

  /** One offset of the scan, given that offset's rolled date. */
  lemma ScanStep(events: seq<ScheduledEvent>, cal: Option<GameCalendar>, maxDays: int,
                 month: int, day: int, hour: int, da: nat, m: int, d: int)
    requires da <= maxDays && (m, d) == Rollover(cal, month, day + da)
    ensures var c := FirstOnDate(events, m, d);
            ScanFrom(events, cal, maxDays, month, day, hour, da) ==
            if c.Some? && !(da == 0 && events[c.value].hour < hour) then Some(Upcoming(events[c.value], da))
            else ScanFrom(events, cal, maxDays, month, day, hour, da + 1)
  {
  }

  /** The rollover loop at the head of each offset: while the day is past its
      month's length, subtract that length and move to the next month, wrapping
      past the last month back to month 1. */
  method RollDate(cal: Option<GameCalendar>, month: int, day: int) returns (checkMonth: int, checkDay: int)
    ensures (checkMonth, checkDay) == Rollover(cal, month, day)
  {
    checkMonth := month;
    checkDay := day;
    var daysInMonth := SafeDaysInMonth(cal, checkMonth);
    while checkDay > daysInMonth
      invariant daysInMonth == SafeDaysInMonth(cal, checkMonth)
      invariant Rollover(cal, checkMonth, checkDay) == Rollover(cal, month, day)
      decreases checkDay
    {
      checkDay := checkDay - daysInMonth;
      checkMonth := checkMonth + 1;
      if checkMonth > SafeMonthsPerYear(cal) {
        checkMonth := 1;
      }
      daysInMonth := SafeDaysInMonth(cal, checkMonth);
    }
  }

  /** TryFindUpcomingEvent: for each offset, roll day + offset over the month
      lengths, take the first event on that date, and skip it at offset 0 when
      its hour has passed. */
  method TryFindUpcomingEvent(events: seq<ScheduledEvent>, cal: Option<GameCalendar>, warningDaysBefore: int,
                              month: int, day: int, hour: int) returns (r: Option<Upcoming>)
    ensures r == FindUpcoming(events, cal, warningDaysBefore, month, day, hour)
  {
    var maxDays := MaxLookahead(warningDaysBefore);
    var da := 0;
    while da <= maxDays
      invariant 0 <= da <= maxDays + 1
      invariant FindUpcoming(events, cal, warningDaysBefore, month, day, hour)
                == ScanFrom(events, cal, maxDays, month, day, hour, da)
    {
      var checkMonth, checkDay := RollDate(cal, month, day + da);
      ScanStep(events, cal, maxDays, month, day, hour, da, checkMonth, checkDay);
      var candidate := FirstOnDate(events, checkMonth, checkDay);
      if candidate.None? {
        da := da + 1;
        continue;
      }
      if da == 0 && events[candidate.value].hour < hour {
        da := da + 1;
        continue;
      }
      return Some(Upcoming(events[candidate.value], da));
    }
    return None;
  }

  /** An event on today's date, first in the list for that date and not yet
      passed, is reported with zero days to go. */
  lemma TodayAheadIsFound(events: seq<ScheduledEvent>, cal: Option<GameCalendar>, warningDaysBefore: int,
                          month: int, day: int, hour: int, i: nat)
    requires i < |events| && OnDate(events[i], month, day)
    requires forall j :: 0 <= j < i ==> !OnDate(events[j], month, day)
    requires day <= SafeDaysInMonth(cal, month)
    requires events[i].hour >= hour
    ensures FindUpcoming(events, cal, warningDaysBefore, month, day, hour) == Some(Upcoming(events[i], 0))
  {
    RolloverWithinMonth(cal, month, day);
    assert FirstOnDate(events, month, day) == Some(i);
  }

  /** The first-match quirk: when the first event of today has passed, a later
      event on the same day is not reported at offset 0, even if still ahead. */
  lemma OnlyFirstSameDayEventIsHourChecked(cal: Option<GameCalendar>, month: int, day: int, hour: int,
                                           early: ScheduledEvent, late: ScheduledEvent)
    requires OnDate(early, month, day) && OnDate(late, month, day)
    requires early.hour < hour <= late.hour
    requires day <= SafeDaysInMonth(cal, month)
    ensures !Acceptable([early, late], cal, month, day, hour, 0)
  {
    RolloverWithinMonth(cal, month, day);
    assert FirstOnDate([early, late], month, day) == Some(0);
  }

  /** A reported event lies on a real calendar date when the query date is one. */
  lemma FoundDateInRange(events: seq<ScheduledEvent>, cal: Option<GameCalendar>, warningDaysBefore: int,
                         month: int, day: int, hour: int)
    requires 1 <= month <= SafeMonthsPerYear(cal) && day >= 1
    requires FindUpcoming(events, cal, warningDaysBefore, month, day, hour).Some?
    ensures var e := FindUpcoming(events, cal, warningDaysBefore, month, day, hour).value.evt;
            1 <= e.month <= SafeMonthsPerYear(cal) && 1 <= e.day <= SafeDaysInMonth(cal, e.month)
  {
    var u := FindUpcoming(events, cal, warningDaysBefore, month, day, hour).value;
    RolloverInRange(cal, month, day + u.daysUntil);
  }
}
