/**
 Anchoring clock readings to a planning horizon: a service date, a time of day
 and a day offset become minutes from the start of the horizon.
 */
module HorizonAnchor {
  import opened Wrappers
  import opened ClockLift

  /** Moments are microseconds of the horizon's own local clock, counted from the first midnight of the calendar. */
  const MINUTE: int := 60_000_000

  /** The last day of the calendar, 31 December 9999, counted from 1 January of year 1. */
  const LAST_DAY: int := 3_652_058

  predicate OnCalendar(day: int) { 0 <= day <= LAST_DAY }

  type CalendarDay = d: int | 0 <= d <= LAST_DAY

  datatype AnchorError = ClockOutOfRange | OffCalendar | FractionalMinute

  function HorizonRelative(serviceDay: CalendarDay, clock: int, dayOffset: int, horizonStart: int): Result<int, AnchorError> {
    if !IsClock(clock) then Err(ClockOutOfRange)
    else if !OnCalendar(serviceDay + dayOffset) then Err(OffCalendar)
    else
      var delta := serviceDay * DAY * MINUTE + (clock + dayOffset * DAY) * MINUTE - horizonStart;
      if delta % MINUTE != 0 then Err(FractionalMinute) else Ok(delta / MINUTE)
  }

  /** Minutes from the horizon's start to the midnight that opens the service date. */
  function Origin(serviceDay: int, horizonStart: int): int { serviceDay * DAY - horizonStart / MINUTE }

  /**
   An event on the calendar is anchored exactly from a horizon on a whole minute,
   and then by adding the origin: so many minutes after the horizon's start it is
   that clock on that day.
   */
  lemma AnchoringTranslates(serviceDay: CalendarDay, clock: int, dayOffset: int, horizonStart: int)
    requires IsClock(clock)
    ensures var r := HorizonRelative(serviceDay, clock, dayOffset, horizonStart);
            && (r.Ok? <==> OnCalendar(serviceDay + dayOffset) && horizonStart % MINUTE == 0)
            && (r.Ok? ==> r.value == clock + dayOffset * DAY + Origin(serviceDay, horizonStart))
            && (r.Ok? ==> horizonStart + r.value * 60_000_000 == ((serviceDay + dayOffset) * 1440 + clock) * 60_000_000)
            && (r.Err? ==> r.error == if OnCalendar(serviceDay + dayOffset) then FractionalMinute else OffCalendar)
  {
    var whole := serviceDay * DAY + clock + dayOffset * DAY;
    assert serviceDay * DAY * MINUTE + (clock + dayOffset * DAY) * MINUTE - horizonStart == whole * MINUTE - horizonStart;
  }
}
