/** The next deadline of a schedule and how much business time is left until then. */
module FreshnessDeadline {
  import opened Wrappers
  import opened BusinessTime
  import BA = BusinessAdvance
  import opened FreshnessSchedule

  const MAX_SEARCH_DAYS := 14

  predicate HasActiveWeekday(activeDays: set<int>) { exists d: int :: 0 <= d < 7 && d in activeDays }

  /** The earliest day from a given one on whose weekday is active. */
  ghost predicate FirstActive(day: int, from: int, activeDays: set<int>) {
    from <= day && Weekday(day) in activeDays && forall d :: from <= d < day ==> Weekday(d) !in activeDays
  }

  lemma EveryWeekdayWithinSeven(from: int, weekday: int) returns (day: int)
    requires 0 <= weekday < 7
    ensures from <= day < from + 7 && Weekday(day) == weekday
  {
    day := from + (weekday - Weekday(from)) % 7;
    assert (from + 3) % 7 == Weekday(from);
  }

  lemma NoneInAWeekMeansNone(from: int, activeDays: set<int>)
    requires forall d :: from <= d < from + 7 ==> Weekday(d) !in activeDays
    ensures !HasActiveWeekday(activeDays)
  {
    forall w: int | 0 <= w < 7 ensures w !in activeDays {
      var day := EveryWeekdayWithinSeven(from, w);
    }
  }

  /** The search never needs more than seven of its fourteen days. */
  method NextActiveDay(from: int, activeDays: set<int>) returns (r: Option<int>)
    ensures r.Some? <==> HasActiveWeekday(activeDays)
    ensures r.Some? ==> FirstActive(r.value, from, activeDays) && r.value < from + 7
  {
    for i := 0 to MAX_SEARCH_DAYS
      invariant forall d :: from <= d < from + i ==> Weekday(d) !in activeDays
      invariant i >= 7 ==> !HasActiveWeekday(activeDays)
    {
      if Weekday(from + i) in activeDays {
        return Some(from + i);
      }
      if i == 6 {
        NoneInAWeekMeansNone(from, activeDays);
      }
    }
    r := None;
  }

  /** Time of day given by a fraction of hours, to the minute below. */
  function FractionalHour(hour: real): (t: int)
    requires 0.0 <= hour < 24.0
    ensures 0 <= t < DAY && t % MINUTE == 0
    ensures (t / MINUTE) as real <= hour * 60.0 < (t / MINUTE) as real + 1.0
  {
    var whole := hour.Floor;
    var minute := ((hour - whole as real) * 60.0).Floor;
    assert 0 <= whole < 24 && 0 <= minute < 60;
    assert (whole * 60 + minute) * MINUTE % MINUTE == 0 && (whole * 60 + minute) * MINUTE / MINUTE == whole * 60 + minute;
    (whole * 60 + minute) * MINUTE
  }

  /** The hour of an update, as a time of day, is the minute of the update. */
  lemma HourIsMinuteOfDay(offset: int, t: int)
    ensures FractionalHour(Hour(offset, t)) == (t + offset) % DAY / MINUTE * MINUTE
  {
    var minute := TimeOfDay(Local(offset), t) / MINUTE;
    assert Hour(offset, t) * 60.0 == minute as real;
    var time := FractionalHour(Hour(offset, t));
    assert (time / MINUTE) as real <= minute as real < (time / MINUTE) as real + 1.0;
    assert time == time / MINUTE * MINUTE;
  }

  lemma Mod24InDay(x: real)
    ensures 0.0 <= Mod24(x) < 24.0
  {
    var whole := (x / 24.0).Floor;
    assert whole as real <= x / 24.0 < whole as real + 1.0;
  }

  /** The deadline on a local day: the end of the window plus a buffer, taken around the clock. */
  function DeadlineOn(offset: int, day: int, windowEnd: real, buffer: real): (t: int)
    ensures LocalDay(Local(offset), t) == day
  {
    Mod24InDay(windowEnd + buffer);
    day * DAY + FractionalHour(Mod24(windowEnd + buffer)) - offset
  }

  /**
   The deadline by the clock: the whole minute at or below the end of the window and the buffer
   together, on a clock of twenty-four hours.
   */
  lemma DeadlineByTheClock(c: Calendar, day: int, windowEnd: real, buffer: real) returns (turns: int)
    ensures var t := DeadlineOn(c.offset, day, windowEnd, buffer);
            var minutes := (windowEnd + buffer - 24.0 * turns as real) * 60.0;
            && LocalDay(c, t) == day && TimeOfDay(c, t) % MINUTE == 0
            && 0.0 <= minutes < 1440.0
            && (TimeOfDay(c, t) / MINUTE) as real <= minutes < (TimeOfDay(c, t) / MINUTE) as real + 1.0
  {
    turns := ((windowEnd + buffer) / 24.0).Floor;
    Mod24InDay(windowEnd + buffer);
    var time := FractionalHour(Mod24(windowEnd + buffer));
    InOneDay(c, day, day * DAY + time - c.offset);
  }

  /**
   There is a deadline exactly when there is a window and an active weekday. It falls on the
   earliest active day after that of the last update, less than eight days away; the result
   is the business time until then, so that advancing by it never passes the deadline.
   */
  method MinutesToNextDeadline(lastUpdate: int, schedule: Schedule, buffer: real, c: Calendar)
    returns (r: Option<int>, ghost deadline: int)
    ensures r.Some? <==> schedule.window.Some? && HasActiveWeekday(schedule.activeDays)
    ensures r.Some? ==>
              && FirstActive(LocalDay(c, deadline), LocalDay(c, lastUpdate) + 1, schedule.activeDays)
              && deadline == DeadlineOn(c.offset, LocalDay(c, deadline), schedule.window.value.end, buffer)
              && lastUpdate < deadline < lastUpdate + 8 * DAY
              && 0 <= r.value == BA.Active(c, lastUpdate, deadline)
    ensures r.Some? ==> forall t :: BA.Reaches(c, lastUpdate, r.value, t) ==> t <= deadline
  {
    deadline := lastUpdate;
    if schedule.window.None? {
      return None, deadline;
    }
    var windowEnd := schedule.window.value.end;
    var candidate := NextActiveDay(LocalDay(c, lastUpdate) + 1, schedule.activeDays);
    if candidate.None? {
      return None, deadline;
    }
    var day := candidate.value;
    var due := DeadlineOn(c.offset, day, windowEnd, buffer);
    LaterDayIsLater(c, lastUpdate, due);
    if due <= lastUpdate {
      candidate := NextActiveDay(day + 1, schedule.activeDays);
      match candidate
      case None =>
      case Some(next) => due := DeadlineOn(c.offset, next, windowEnd, buffer);
    }
    deadline := due;
    var left := due - lastUpdate;
    if c.weekends || c.holidays != {} || c.excludedDays != {} {
      var excluded := CountExcluded(lastUpdate, due, c, None);
      left := Max(left - excluded, 0);
    } else {
      MeasureAllOrNothing(c, None, lastUpdate, due);
    }
    r := if due <= lastUpdate then None else Some(left);
    forall t | BA.Reaches(c, lastUpdate, left, t) ensures t <= deadline {
      assert left <= BA.Active(c, lastUpdate, deadline);
    }
  }

  /** An instant on a later local day comes later, and one at most seven days later within eight days. */
  lemma LaterDayIsLater(c: Calendar, s: int, t: int)
    ensures LocalDay(c, t) > LocalDay(c, s) ==> t > s
    ensures LocalDay(c, t) <= LocalDay(c, s) + 7 ==> t < s + 8 * DAY
    ensures LocalDay(c, t) == LocalDay(Local(c.offset), t)
  {
    var a, b := LocalDay(c, s), LocalDay(c, t);
    assert a * DAY <= s + c.offset < a * DAY + DAY && b * DAY <= t + c.offset < b * DAY + DAY;
    assert b > a ==> b * DAY >= a * DAY + DAY;
    assert b <= a + 7 ==> b * DAY <= a * DAY + 7 * DAY;
  }

  /** Every schedule inferred with a window has a deadline. */
  lemma InferredScheduleHasDeadline(offset: int, times: seq<int>, s: Schedule)
    requires Fits(offset, times, s)
    ensures HasActiveWeekday(s.activeDays)
  {
    var d :| d in s.activeDays;
    assert d in EVERY_DAY;
  }
}
