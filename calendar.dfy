/** The in-game calendar as the mod reads it. The engine exposes some fields only
    through reflection; here each optional field is an explicit `Option`, and the
    `Safe...` functions apply the mod's fallbacks. Calendar values that are
    doubles in the engine are given already rounded the way the mod rounds them. */
module Calendar {
  import opened Wrappers
  import opened GameMath

  datatype GameCalendar = GameCalendar(
    year: int,
    /** Math.Round of the calendar's month. */
    month: int,
    /** Math.Floor of the calendar's hour of day. */
    hourOfDay: int,
    /** Math.Round of the `DayOfMonth` property; None when absent or unreadable. */
    dayOfMonth: Option<int>,
    /** Math.Round of the `MonthsPerYear` property; None when absent or unreadable. */
    monthsPerYear: Option<int>,
    /** The `DaysPerMonth` property when it is an int[]; None otherwise. */
    daysPerMonthArray: Option<seq<int>>,
    /** Math.Floor(DaysPerMonth + 0.00001) of the scalar property; None when reading it throws. */
    daysPerMonth: Option<int>,
    /** Math.Ceiling of the calendar's hours per day. */
    hoursPerDay: int)

  /** A sanitised calendar reading. */
  datatype Moment = Moment(year: int, month: int, day: int, hour: int)

  /** SafeMonthsPerYear: the calendar's value, at least 1, or 12 when unknown. */
  function SafeMonthsPerYear(cal: Option<GameCalendar>): (n: int)
    ensures n >= 1
    ensures (cal.None? || cal.value.monthsPerYear.None?) ==> n == 12
    ensures cal.Some? && cal.value.monthsPerYear.Some? && cal.value.monthsPerYear.value >= 1
            ==> n == cal.value.monthsPerYear.value
  {
    match cal
    case None => 12
    case Some(c) =>
      match c.monthsPerYear
      case Some(v) => Max(1, v)
      case None => 12
  }

  /** SafeDaysInMonth: the per-month array entry when the array covers the month,
      otherwise the scalar days-per-month, otherwise 30; always at least 1.
      Without a calendar, `Convert.ToDouble(null)` is 0, so the result is 1. */
  function SafeDaysInMonth(cal: Option<GameCalendar>, month: int): (n: int)
    ensures n >= 1
    ensures cal.None? ==> n == 1
    ensures cal.Some? && cal.value.daysPerMonthArray.None? && cal.value.daysPerMonth.None? ==> n == 30
    ensures cal.Some? && cal.value.daysPerMonthArray.Some? && 1 <= month <= |cal.value.daysPerMonthArray.value|
            ==> n == Max(1, cal.value.daysPerMonthArray.value[month - 1])
  {
    match cal
    case None => 1
    case Some(c) =>
      if c.daysPerMonthArray.Some? && 1 <= month <= |c.daysPerMonthArray.value| then
        Max(1, c.daysPerMonthArray.value[month - 1])
      else
        match c.daysPerMonth
        case Some(d) => Max(1, d)
        case None => 30
  }

  /** The ceiling of the calendar's hours per day (24 without a calendar), at least 1:
      the exclusive upper bound of a generated event's hour. */
  function SafeHoursPerDay(cal: Option<GameCalendar>): (n: int)
    ensures n >= 1
    ensures cal.None? ==> n == 24
  {
    match cal
    case None => 24
    case Some(c) => Max(1, c.hoursPerDay)
  }

  /** The calendar year as the mod reads it: 0 without a calendar. */
  function CalendarYear(cal: Option<GameCalendar>): int {
    match cal
    case None => 0
    case Some(c) => c.year
  }

  /** SafeMonthDayHour: month and day at least 1, hour at least 0, day 1 when
      the day-of-month property is unavailable. */
  function SafeMonthDayHour(cal: Option<GameCalendar>): (m: Moment)
    ensures m.year == CalendarYear(cal)
    ensures m.month >= 1 && m.day >= 1 && m.hour >= 0
    ensures cal.None? ==> m == Moment(0, 1, 1, 0)
    ensures cal.Some? && cal.value.dayOfMonth.None? ==> m.day == 1
  {
    match cal
    case None => Moment(0, 1, 1, 0)
    case Some(c) =>
      Moment(c.year, Max(1, c.month),
             match c.dayOfMonth { case Some(d) => Max(1, d) case None => 1 },
             Max(0, c.hourOfDay))
  }

  /** The month after `month`, wrapping past the months-per-year back to month 1. */
  function NextMonth(cal: Option<GameCalendar>, month: int): (n: int)
    ensures n == 1 || n == month + 1
    ensures 0 <= month < SafeMonthsPerYear(cal) ==> n == month + 1
  {
    if month + 1 > SafeMonthsPerYear(cal) then 1 else month + 1
  }

  /** The date that day number `day` of month `month` denotes once it is rolled
      over the irregular month lengths, as the loop at the head of
      TryFindUpcomingEvent computes it. Terminates because every month has at
      least one day. */
  function Rollover(cal: Option<GameCalendar>, month: int, day: int): (d: (int, int))
    ensures d.1 <= day && d.1 <= SafeDaysInMonth(cal, d.0)
    ensures day >= 1 ==> d.1 >= 1
    decreases day
  {
    var dim := SafeDaysInMonth(cal, month);
    if day > dim then Rollover(cal, NextMonth(cal, month), day - dim) else (month, day)
  }

  /** A rolled date is a real date of the calendar. */
  lemma {:induction false} RolloverInRange(cal: Option<GameCalendar>, month: int, day: int)
    requires 1 <= month <= SafeMonthsPerYear(cal)
    requires day >= 1
    ensures var (m, d) := Rollover(cal, month, day);
            1 <= m <= SafeMonthsPerYear(cal) && 1 <= d <= SafeDaysInMonth(cal, m)
    decreases day
  {
    var dim := SafeDaysInMonth(cal, month);
    if day > dim {
      RolloverInRange(cal, NextMonth(cal, month), day - dim);
    }
  }

  /** A day that lies inside its month is not rolled. */
  lemma RolloverWithinMonth(cal: Option<GameCalendar>, month: int, day: int)
    requires day <= SafeDaysInMonth(cal, month)
    ensures Rollover(cal, month, day) == (month, day)
  {
  }
}
