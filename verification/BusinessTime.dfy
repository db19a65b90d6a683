/**
 Time with excluded days and hours. Instants are nanoseconds, the resolution of a timestamp;
 the local clock is a fixed offset from UTC, so that every local day has the same length.
 */
module BusinessTime {
  import opened Wrappers

  const MINUTE: int := 60_000_000_000
  const DAY: int := 86_400_000_000_000

  /** What is never counted: weekends if so asked, holidays, and inactive weekdays. */
  datatype Calendar = Calendar(offset: int, weekends: bool, holidays: set<int>, excludedDays: set<int>)

  /** Active hours of a day, as times since local midnight. */
  datatype Window = Window(open: int, close: int)

  function LocalDay(c: Calendar, t: int): int { (t + c.offset) / DAY }
  function TimeOfDay(c: Calendar, t: int): int { (t + c.offset) % DAY }

  /** Monday is 0; day 0, the first of January 1970, was a Thursday. */
  function Weekday(day: int): int { (day + 3) % 7 }

  predicate WeekdayExcluded(c: Calendar, day: int) {
    (c.weekends && Weekday(day) >= 5) || Weekday(day) in c.excludedDays
  }

  predicate DayExcluded(c: Calendar, day: int) { WeekdayExcluded(c, day) || day in c.holidays }

  /** Whether an instant does not count. */
  predicate Excluded(c: Calendar, w: Option<Window>, t: int) {
    DayExcluded(c, LocalDay(c, t)) || (w.Some? && !(w.value.open <= TimeOfDay(c, t) < w.value.close))
  }

  /** How many instants of [s, e) do not count. */
  function Measure(c: Calendar, w: Option<Window>, s: int, e: int): (m: nat)
    ensures m <= if s < e then e - s else 0
    decreases e - s
  {
    if s >= e then 0 else Measure(c, w, s, e - 1) + if Excluded(c, w, e - 1) then 1 else 0
  }

  // ---------- Laws of the measure ----------

  /** Excluded time of adjacent intervals adds up. */
  lemma {:induction false} MeasureAdds(c: Calendar, w: Option<Window>, a: int, b: int, e: int)
    requires a <= b <= e
    ensures Measure(c, w, a, e) == Measure(c, w, a, b) + Measure(c, w, b, e)
    decreases e - b
  {
    if b < e {
      MeasureAdds(c, w, a, b, e - 1);
    }
  }

  lemma {:induction false} MeasureAllOrNothing(c: Calendar, w: Option<Window>, s: int, e: int)
    requires s <= e
    ensures (forall t :: s <= t < e ==> Excluded(c, w, t)) ==> Measure(c, w, s, e) == e - s
    ensures (forall t :: s <= t < e ==> !Excluded(c, w, t)) ==> Measure(c, w, s, e) == 0
    decreases e - s
  {
    if s < e {
      MeasureAllOrNothing(c, w, s, e - 1);
    }
  }

  /** c excludes whatever b excludes. */
  ghost predicate Wider(c: Calendar, w: Option<Window>, b: Calendar, v: Option<Window>) {
    forall t :: Excluded(b, v, t) ==> Excluded(c, w, t)
  }

  lemma {:induction false} MeasureGrows(c: Calendar, w: Option<Window>, b: Calendar, v: Option<Window>, s: int, e: int)
    requires Wider(c, w, b, v)
    ensures Measure(b, v, s, e) <= Measure(c, w, s, e)
    decreases e - s
  {
    if s < e {
      MeasureGrows(c, w, b, v, s, e - 1);
    }
  }

  /** More excluded days or a narrower window never count less. */
  lemma MoreExclusionsCountMore(c: Calendar, w: Option<Window>, b: Calendar, v: Option<Window>, s: int, e: int)
    requires c.offset == b.offset && (b.weekends ==> c.weekends)
    requires b.holidays <= c.holidays && b.excludedDays <= c.excludedDays
    requires v.Some? ==> w.Some? && v.value.open <= w.value.open && w.value.close <= v.value.close
    ensures Measure(b, v, s, e) <= Measure(c, w, s, e)
  {
    forall t | Excluded(b, v, t) ensures Excluded(c, w, t) {
      assert LocalDay(b, t) == LocalDay(c, t);
    }
    MeasureGrows(c, w, b, v, s, e);
  }

  // ---------- A week ----------

  function Weekends(offset: int): Calendar { Calendar(offset, true, {}, {}) }

  lemma SameTimeNextWeek(offset: int, t: int)
    ensures Excluded(Weekends(offset), None, t + 7 * DAY) <==> Excluded(Weekends(offset), None, t)
  {
    assert LocalDay(Weekends(offset), t + 7 * DAY) == LocalDay(Weekends(offset), t) + 7;
  }

  lemma MeasureOne(c: Calendar, w: Option<Window>, t: int)
    ensures Measure(c, w, t, t + 1) == if Excluded(c, w, t) then 1 else 0
  {
    assert Measure(c, w, t, t) == 0;
  }

  lemma {:induction false} WeekSlides(offset: int, s: int, n: nat)
    ensures Measure(Weekends(offset), None, s + n, s + n + 7 * DAY) == Measure(Weekends(offset), None, s, s + 7 * DAY)
  {
    if n > 0 {
      WeekSlides(offset, s, n - 1);
      var c, t := Weekends(offset), s + n - 1;
      MeasureAdds(c, None, t, t + 1, t + 7 * DAY);
      MeasureAdds(c, None, t + 1, t + 7 * DAY, t + 7 * DAY + 1);
      MeasureOne(c, None, t);
      MeasureOne(c, None, t + 7 * DAY);
      SameTimeNextWeek(offset, t);
    }
  }

  /** Day -3 is a Monday: five days count, two do not. */
  lemma DayOfFirstWeek(offset: int, t: int)
    requires -3 * DAY <= t + offset < 4 * DAY
    ensures Excluded(Weekends(offset), None, t) <==> t + offset >= 2 * DAY
  {
    var day := LocalDay(Weekends(offset), t);
    assert day * DAY <= t + offset < day * DAY + DAY;
    assert -3 <= day < 4 && (day >= 2 <==> t + offset >= 2 * DAY);
  }

  lemma MondayWeek(offset: int)
    ensures Measure(Weekends(offset), None, -3 * DAY - offset, 4 * DAY - offset) == 2 * DAY
  {
    var c, monday, saturday, sunday := Weekends(offset), -3 * DAY - offset, 2 * DAY - offset, 4 * DAY - offset;
    forall t | monday <= t < sunday ensures Excluded(c, None, t) <==> t >= saturday {
      DayOfFirstWeek(offset, t);
    }
    MeasureAllOrNothing(c, None, monday, saturday);
    MeasureAllOrNothing(c, None, saturday, sunday);
    MeasureAdds(c, None, monday, saturday, sunday);
  }

  lemma AnyWeek(offset: int, s: int)
    ensures Measure(Weekends(offset), None, s, s + 7 * DAY) == 2 * DAY
  {
    var monday := -3 * DAY - offset;
    MondayWeek(offset);
    if s >= monday {
      WeekSlides(offset, monday, s - monday);
    } else {
      WeekSlides(offset, s, monday - s);
    }
  }

  /** Any span of 7 k days, wherever it starts, has 2 k days of weekend. */
  lemma {:induction false} WeekendsOfWholeWeeks(offset: int, s: int, k: nat)
    ensures Measure(Weekends(offset), None, s, s + 7 * DAY * k) == 2 * DAY * k
  {
    if k > 0 {
      WeekendsOfWholeWeeks(offset, s, k - 1);
      AnyWeek(offset, s + 7 * DAY * (k - 1));
      MeasureAdds(Weekends(offset), None, s, s + 7 * DAY * (k - 1), s + 7 * DAY * k);
    }
  }

  // ---------- Counting day by day ----------

  function Max(a: int, b: int): int { if a >= b then a else b }
  function Min(a: int, b: int): int { if a <= b then a else b }

  lemma InOneDay(c: Calendar, day: int, t: int)
    requires day * DAY <= t + c.offset < day * DAY + DAY
    ensures LocalDay(c, t) == day && TimeOfDay(c, t) == t + c.offset - day * DAY
  {
  }

  /** Excluded time of a part of one local day. */
  lemma MeasureWithinDay(c: Calendar, w: Option<Window>, day: int, s: int, e: int)
    requires day * DAY <= s + c.offset && s <= e && e + c.offset <= day * DAY + DAY
    ensures Measure(c, w, s, e) ==
            if DayExcluded(c, day) then e - s
            else if w.None? then 0
            else e - s - Max(Min(e, day * DAY + w.value.close - c.offset) - Max(s, day * DAY + w.value.open - c.offset), 0)
  {
    forall t | s <= t < e
      ensures LocalDay(c, t) == day && TimeOfDay(c, t) == t + c.offset - day * DAY
    {
      InOneDay(c, day, t);
    }
    if DayExcluded(c, day) || w.None? {
      MeasureAllOrNothing(c, w, s, e);
    } else {
      var a := Max(s, day * DAY + w.value.open - c.offset);
      var b := Min(e, day * DAY + w.value.close - c.offset);
      if a >= b {
        MeasureAllOrNothing(c, w, s, e);
      } else {
        MeasureAllOrNothing(c, w, s, a);
        MeasureAllOrNothing(c, w, a, b);
        MeasureAllOrNothing(c, w, b, e);
        MeasureAdds(c, w, s, a, b);
        MeasureAdds(c, w, s, b, e);
      }
    }
  }

  /**
   A whole local day: it counts as excluded from end to end if it is a holiday, an inactive
   weekday or, if weekends are excluded, a Saturday or Sunday; otherwise all of it but its
   active hours does.
   */
  lemma WholeDay(c: Calendar, w: Option<Window>, day: int)
    ensures var closed := day in c.holidays || Weekday(day) in c.excludedDays || (c.weekends && Weekday(day) >= 5);
            Measure(c, w, day * DAY - c.offset, day * DAY + DAY - c.offset) ==
            if closed then DAY else if w.None? then 0 else DAY - Max(Min(DAY, w.value.close) - Max(0, w.value.open), 0)
  {
    MeasureWithinDay(c, w, day, day * DAY - c.offset, day * DAY + DAY - c.offset);
  }

  /** The calendar begins on a Thursday, and the days of the week follow each other. */
  lemma WeekdaysFollow(day: int)
    ensures Weekday(0) == 3 && Weekday(day + 1) == if Weekday(day) == 6 then 0 else Weekday(day) + 1
    ensures 0 <= Weekday(day) <= 6
  {
  }

  /**
   A single timestamp is excluded on a holiday, an inactive weekday and an excluded weekend, and
   otherwise exactly when its minute is outside the hours, both ends of which are inside.
   */
  lemma TimestampIsExcluded(c: Calendar, w: Option<Window>, t: int)
    ensures var day := (t + c.offset) / DAY;
            var minute := (t + c.offset) % DAY / MINUTE * MINUTE;
            var closed := day in c.holidays || Weekday(day) in c.excludedDays || (c.weekends && Weekday(day) >= 5);
            IsExcludedDay(c, w, t) <==>
              || closed
              || (w.Some? && if w.value.open <= w.value.close then minute < w.value.open || w.value.close < minute
                             else w.value.close < minute < w.value.open)
  {
  }

  /**
   The day loop counts exactly the excluded instants. A window that wraps around midnight
   has no instant of its own on any day, so that with it every day counts as excluded.
   */
  method CountExcluded(start: int, end: int, c: Calendar, w: Option<Window>) returns (total: int)
    ensures total == Measure(c, w, start, end)
  {
    var localStart, localEnd := start + c.offset, end + c.offset;
    if localStart >= localEnd {
      return 0;
    }
    total := 0;
    var day := localStart / DAY;
    while day * DAY < localEnd
      invariant localStart < day * DAY + DAY
      invariant total == Measure(c, w, localStart - c.offset, Max(localStart, Min(day * DAY, localEnd)) - c.offset)
      decreases localEnd - day * DAY
    {
      var excludedOnDay := ExcludedOnDay(localStart, localEnd, day, c, w);
      CountStep(c, w, localStart, localEnd, day);
      if excludedOnDay > 0 {
        total := total + excludedOnDay;
      }
      day := day + 1;
    }
  }

  lemma CountStep(c: Calendar, w: Option<Window>, localStart: int, localEnd: int, day: int)
    requires localStart < day * DAY + DAY && day * DAY < localEnd && localStart < localEnd
    ensures Measure(c, w, localStart - c.offset, Max(localStart, Min((day + 1) * DAY, localEnd)) - c.offset)
         == Measure(c, w, localStart - c.offset, Max(localStart, Min(day * DAY, localEnd)) - c.offset)
          + Measure(c, w, Max(localStart, day * DAY) - c.offset, Min(localEnd, day * DAY + DAY) - c.offset)
  {
    var from, to := Max(localStart, day * DAY), Min(localEnd, day * DAY + DAY);
    assert (day + 1) * DAY == day * DAY + DAY;
    MeasureAdds(c, w, localStart - c.offset, from - c.offset, to - c.offset);
  }

  /** The part of one local day that lies in the interval. */
  method ExcludedOnDay(localStart: int, localEnd: int, day: int, c: Calendar, w: Option<Window>) returns (excluded: int)
    requires localStart < day * DAY + DAY && day * DAY < localEnd && localStart < localEnd
    ensures excluded == Measure(c, w, Max(localStart, day * DAY) - c.offset, Min(localEnd, day * DAY + DAY) - c.offset)
  {
    var dayStart, nextDay := day * DAY, day * DAY + DAY;
    var overlapStart, overlapEnd := Max(localStart, dayStart), Min(localEnd, nextDay);
    MeasureWithinDay(c, w, day, overlapStart - c.offset, overlapEnd - c.offset);
    if DayExcluded(c, day) {
      excluded := overlapEnd - overlapStart;
    } else if w.Some? {
      var activeStart := Max(overlapStart, dayStart + w.value.open);
      var activeEnd := Min(overlapEnd, dayStart + w.value.close);
      excluded := overlapEnd - overlapStart - Max(activeEnd - activeStart, 0);
    } else {
      excluded := 0;
    }
  }

  // ---------- Single instants ----------

  /** Windows of single timestamps include both ends and may wrap around midnight. */
  predicate InTimeWindow(hour: real, start: real, end: real) {
    if start <= end then start <= hour <= end else hour >= start || hour <= end
  }

  /** Time of day, cut to the minute. */
  function MinuteOfDay(c: Calendar, t: int): (m: int)
    ensures m <= TimeOfDay(c, t) < m + MINUTE && m % MINUTE == 0
  {
    RoundedDown(TimeOfDay(c, t), 0);
    TimeOfDay(c, t) / MINUTE * MINUTE
  }

  /** The check of one timestamp, to the minute, with windows that may wrap around midnight. */
  predicate IsExcludedDay(c: Calendar, w: Option<Window>, t: int) {
    || DayExcluded(c, LocalDay(c, t))
    || (w.Some? && !InTimeWindow(MinuteOfDay(c, t) as real, w.value.open as real, w.value.close as real))
  }

  lemma RoundedDown(time: int, bound: int)
    requires bound % MINUTE == 0
    ensures bound <= time / MINUTE * MINUTE <==> bound <= time
    ensures time / MINUTE * MINUTE <= time < time / MINUTE * MINUTE + MINUTE && (time / MINUTE * MINUTE) % MINUTE == 0
  {
    assert bound == bound / MINUTE * MINUTE;
    assert time == time / MINUTE * MINUTE + time % MINUTE;
  }

  /**
   Where the check of a timestamp and the count disagree, for every window. The check alone
   excludes what follows the opening within the minute in which the window opens. The count
   alone excludes what lies at or after the closing within the minute in which the window
   closes, and everything inside a window that wraps.
   */
  lemma CheckAndCountDisagree(c: Calendar, w: Window, t: int)
    ensures IsExcludedDay(c, Some(w), t) && !Excluded(c, Some(w), t) <==>
              && !DayExcluded(c, LocalDay(c, t))
              && MinuteOfDay(c, t) < w.open <= TimeOfDay(c, t) < w.close
    ensures !IsExcludedDay(c, Some(w), t) && Excluded(c, Some(w), t) <==>
              && !DayExcluded(c, LocalDay(c, t))
              && if w.open <= w.close then w.open <= MinuteOfDay(c, t) <= w.close <= TimeOfDay(c, t)
                 else MinuteOfDay(c, t) >= w.open || MinuteOfDay(c, t) <= w.close
  {
  }

  /**
   For windows given in whole minutes the opening causes no disagreement: what remains is
   the closing minute, and windows that wrap, up to the end of their closing minute.
   */
  lemma WholeMinutesDisagree(c: Calendar, w: Window, t: int)
    requires w.open % MINUTE == 0 && w.close % MINUTE == 0
    ensures IsExcludedDay(c, Some(w), t) ==> Excluded(c, Some(w), t)
    ensures IsExcludedDay(c, Some(w), t) != Excluded(c, Some(w), t) <==>
              && !DayExcluded(c, LocalDay(c, t))
              && var time := TimeOfDay(c, t);
                 if w.open <= w.close then w.close <= time < w.close + MINUTE && w.open <= time
                 else time >= w.open || time < w.close + MINUTE
  {
    RoundedDown(TimeOfDay(c, t), w.open);
    RoundedDown(TimeOfDay(c, t), w.close + MINUTE);
    CheckAndCountDisagree(c, w, t);
  }

  /** Half a minute into a window that opens at 8:00:30 the count has started and the check has not. */
  lemma OpeningMinuteIsExcluded(c: Calendar, t: int)
    requires !DayExcluded(c, LocalDay(c, t)) && TimeOfDay(c, t) == 480 * MINUTE + 45_000_000_000
    ensures var w := Window(480 * MINUTE + 30_000_000_000, 1020 * MINUTE);
            IsExcludedDay(c, Some(w), t) && !Excluded(c, Some(w), t)
  {
    RoundedDown(TimeOfDay(c, t), 480 * MINUTE);
    RoundedDown(TimeOfDay(c, t), 481 * MINUTE);
  }
}
