/** Advancing the clock by business time, the inverse of counting excluded time. */
module BusinessAdvance {
  import opened Wrappers
  import opened BusinessTime

  /** Business time between two instants, days being excluded as a whole. */
  function Active(c: Calendar, s: int, t: int): int { t - s - Measure(c, None, s, t) }

  /** r is the first instant at which n has passed since s: for every later t, r <= t iff n has passed by t. */
  ghost predicate Reaches(c: Calendar, s: int, n: int, r: int) {
    s <= r && forall t :: s <= t ==> (r <= t <==> n <= Active(c, s, t))
  }

  /** Days 0 to 6 are one of each weekday. */
  predicate HasUsableWeekday(c: Calendar) { exists d: int :: 0 <= d < 7 && !WeekdayExcluded(c, d) }

  // ---------- Laws of business time ----------

  lemma ActiveAdds(c: Calendar, a: int, b: int, t: int)
    requires a <= b <= t
    ensures Active(c, a, t) == Active(c, a, b) + Active(c, b, t)
    ensures Active(c, b, t) >= 0
  {
    MeasureAdds(c, None, a, b, t);
  }

  lemma ReachesIsUnique(c: Calendar, s: int, n: int, r: int, q: int)
    requires Reaches(c, s, n, r) && Reaches(c, s, n, q)
    ensures r == q
  {
    assert n <= Active(c, s, r) && n <= Active(c, s, q);
  }

  /** Exactly n has passed when it is reached: advancing undoes counting. */
  lemma ReachedExactly(c: Calendar, s: int, n: nat, r: int)
    requires Reaches(c, s, n, r)
    ensures Active(c, s, r) == n
  {
    assert n <= Active(c, s, r);
    if r > s {
      assert !(n <= Active(c, s, r - 1));
      ActiveAdds(c, s, r - 1, r);
      assert Active(c, r - 1, r) <= 1;
    }
  }

  /** Counting from s to t and advancing by the count leads back to t, or to before the idle time it ends in. */
  lemma CountThenAdvance(c: Calendar, s: int, t: int, r: int)
    requires s <= t && Reaches(c, s, Active(c, s, t), r)
    ensures r <= t && forall u :: r <= u < t ==> Excluded(c, None, u)
  {
    assert Active(c, s, t) <= Active(c, s, t);
    assert Active(c, s, t) <= Active(c, s, r);
    ActiveAdds(c, s, r, t);
    forall u | r <= u < t ensures Excluded(c, None, u) {
      ActiveAdds(c, r, u, t);
      ActiveAdds(c, u, u + 1, t);
      ActiveAdds(c, r, r, u);
      assert Measure(c, None, u, u + 1) == Measure(c, None, u, u) + if Excluded(c, None, u) then 1 else 0;
    }
  }

  /** Advancing twice is advancing once by the sum. */
  lemma AdvancesCompose(c: Calendar, s: int, m: nat, n: nat, r: int, q: int)
    requires Reaches(c, s, m, r) && Reaches(c, r, n, q)
    ensures Reaches(c, s, m + n, q)
  {
    ReachedExactly(c, s, m, r);
    forall t | s <= t ensures q <= t <==> m + n <= Active(c, s, t) {
      if t >= r {
        ActiveAdds(c, s, r, t);
      } else {
        assert !(m <= Active(c, s, t));
      }
    }
  }

  /** More business time from a later start never ends earlier. */
  lemma AdvanceIsMonotone(c: Calendar, s: int, n: int, r: int, u: int, m: int, q: int)
    requires s <= u && n <= m && Reaches(c, s, n, r) && Reaches(c, u, m, q)
    ensures r <= q
  {
    assert m <= Active(c, u, q);
    ActiveAdds(c, s, u, u);
    ActiveAdds(c, s, u, q);
  }

  /**
   Where advancing ends: inside a day, or at the end of one, that is no holiday, no inactive
   weekday and, if weekends are excluded, no Saturday or Sunday.
   */
  lemma EndsOnBusinessDay(c: Calendar, s: int, n: int, r: int)
    requires n > 0 && Reaches(c, s, n, r)
    ensures s < r
    ensures var day := (r - 1 + c.offset) / DAY;
            && day * DAY < r + c.offset <= day * DAY + DAY
            && day !in c.holidays && Weekday(day) !in c.excludedDays && (c.weekends ==> Weekday(day) < 5)
  {
    assert n <= Active(c, s, r);
    assert s < r && !(n <= Active(c, s, r - 1));
    ActiveAdds(c, s, r - 1, r);
    MeasureOne(c, None, r - 1);
  }

  /**
   Advancing from the first instant of a closed day: the day is skipped as a whole, so that the
   result is the same as from the first instant of the next.
   */
  lemma ClosedDayIsSkipped(c: Calendar, day: int, n: int, r: int)
    requires day in c.holidays || Weekday(day) in c.excludedDays || (c.weekends && Weekday(day) >= 5)
    requires n > 0 && Reaches(c, day * DAY - c.offset, n, r)
    ensures Reaches(c, day * DAY + DAY - c.offset, n, r)
  {
    var s, u := day * DAY - c.offset, day * DAY + DAY - c.offset;
    WholeDay(c, None, day);
    assert Active(c, s, u) == 0 && !(n <= Active(c, s, u));
    forall t | u <= t ensures r <= t <==> n <= Active(c, u, t) {
      ActiveAdds(c, s, u, t);
    }
  }

  /** Within an open day advancing takes exactly the time asked for, up to the end of the day. */
  lemma OpenDayIsTaken(c: Calendar, s: int, n: int, r: int)
    requires var day := (s + c.offset) / DAY;
             && day !in c.holidays && Weekday(day) !in c.excludedDays && (c.weekends ==> Weekday(day) < 5)
             && 0 <= n <= day * DAY + DAY - c.offset - s
    requires Reaches(c, s, n, r)
    ensures r == s + n
  {
    UsableDayCounts(c, s, s + n);
    assert n <= Active(c, s, s + n);
    ReachedExactly(c, s, n, r);
    UsableDayCounts(c, s, r);
  }

  // ---------- Usable days ----------

  /** Days until the weekday is one that counts. */
  function WeekdayWait(c: Calendar, d: int): nat {
    if !WeekdayExcluded(c, d) then 0 else if !WeekdayExcluded(c, d + 1) then 1 else if !WeekdayExcluded(c, d + 2) then 2
    else if !WeekdayExcluded(c, d + 3) then 3 else if !WeekdayExcluded(c, d + 4) then 4
    else if !WeekdayExcluded(c, d + 5) then 5 else if !WeekdayExcluded(c, d + 6) then 6 else 7
  }

  lemma UsableWithinWeek(c: Calendar, d: int) returns (k: int)
    requires HasUsableWeekday(c)
    ensures 0 <= k < 7 && !WeekdayExcluded(c, d + k)
  {
    var u: int :| 0 <= u < 7 && !WeekdayExcluded(c, u);
    k := (u - d) % 7;
    assert (d + k - u) % 7 == 0;
    assert Weekday(d + k) == Weekday(u);
  }

  lemma WeekdayWaitShrinks(c: Calendar, d: int)
    requires HasUsableWeekday(c) && WeekdayExcluded(c, d)
    ensures WeekdayWait(c, d + 1) < WeekdayWait(c, d)
  {
    var k := UsableWithinWeek(c, d);
    assert k == 1 || k == 2 || k == 3 || k == 4 || k == 5 || k == 6;
  }

  function HolidaysFrom(c: Calendar, d: int): set<int> { set h | h in c.holidays && h >= d }

  lemma HolidayPasses(c: Calendar, d: int)
    ensures |HolidaysFrom(c, d + 1)| <= |HolidaysFrom(c, d)|
    ensures d in c.holidays ==> |HolidaysFrom(c, d + 1)| < |HolidaysFrom(c, d)|
  {
    assert HolidaysFrom(c, d + 1) == HolidaysFrom(c, d) - {d};
  }

  /** The first day from d on that counts. */
  function FirstUsable(c: Calendar, d: int): (u: int)
    requires HasUsableWeekday(c)
    ensures d <= u && !DayExcluded(c, u) && forall x :: d <= x < u ==> DayExcluded(c, x)
    decreases |HolidaysFrom(c, d)|, WeekdayWait(c, d)
  {
    if !DayExcluded(c, d) then d
    else
      HolidayPasses(c, d);
      assert WeekdayExcluded(c, d) ==> WeekdayWait(c, d + 1) < WeekdayWait(c, d) by {
        if WeekdayExcluded(c, d) { WeekdayWaitShrinks(c, d); }
      }
      FirstUsable(c, d + 1)
  }

  /** Skipping excluded days costs no business time. */
  lemma SkippingIsFree(c: Calendar, t: int, u: int)
    requires t + c.offset <= u * DAY && forall x :: LocalDay(c, t) <= x < u ==> DayExcluded(c, x)
    ensures Active(c, t, u * DAY - c.offset) == 0
  {
    forall x | t <= x < u * DAY - c.offset ensures Excluded(c, None, x) {
      assert LocalDay(c, t) <= LocalDay(c, x) < u;
    }
    MeasureAllOrNothing(c, None, t, u * DAY - c.offset);
  }

  /** Within a day that counts all time is business time. */
  lemma UsableDayCounts(c: Calendar, t: int, u: int)
    requires t <= u && u + c.offset <= (LocalDay(c, t) + 1) * DAY && !DayExcluded(c, LocalDay(c, t))
    ensures Active(c, t, u) == u - t
  {
    forall x | t <= x < u ensures !Excluded(c, None, x) {
      InOneDay(c, LocalDay(c, t), x);
    }
    MeasureAllOrNothing(c, None, t, u);
  }

  // ---------- Advancing ----------

  /** Enough is left of the current day. */
  lemma LastDay(c: Calendar, start: int, n: int, t: int, remaining: int)
    requires start <= t && 0 < remaining && Active(c, start, t) + remaining == n
    requires !DayExcluded(c, LocalDay(c, t)) && t + c.offset + remaining <= (LocalDay(c, t) + 1) * DAY
    ensures Reaches(c, start, n, t + remaining)
  {
    var r := t + remaining;
    forall x | start <= x ensures r <= x <==> n <= Active(c, start, x) {
      if x < t {
        ActiveAdds(c, start, x, t);
      } else if x < r {
        ActiveAdds(c, start, t, x);
        UsableDayCounts(c, t, x);
      } else {
        ActiveAdds(c, start, t, r);
        UsableDayCounts(c, t, r);
        ActiveAdds(c, start, r, x);
      }
    }
  }

  /** From a day that does not count to the next that does, at most 366 days at a time. */
  method SkipExcludedDays(cursor: int, c: Calendar) returns (after: int)
    requires HasUsableWeekday(c) && DayExcluded(c, LocalDay(c, cursor))
    ensures cursor < after && Active(c, cursor, after) == 0
    ensures after + c.offset <= FirstUsable(c, LocalDay(c, cursor)) * DAY
    ensures DayExcluded(c, LocalDay(c, after)) ==>
              FirstUsable(c, LocalDay(c, after)) == FirstUsable(c, LocalDay(c, cursor))
  {
    ghost var first, u := LocalDay(c, cursor), FirstUsable(c, LocalDay(c, cursor));
    var day := LocalDay(c, cursor) + 1;
    for _ := 0 to 365
      invariant first < day <= u
    {
      if !DayExcluded(c, day) {
        break;
      }
      day := day + 1;
    }
    after := day * DAY - c.offset;
    assert LocalDay(c, after) == day;
    SkippingIsFree(c, cursor, day);
    ghost var v := FirstUsable(c, day);
    assert (v < u ==> DayExcluded(c, v)) && (u < v ==> DayExcluded(c, u));
  }

  /** Time still to go to the next day that counts. */
  ghost function Idle(c: Calendar, t: int): nat
    requires HasUsableWeekday(c)
  {
    if DayExcluded(c, LocalDay(c, t)) then
      assert FirstUsable(c, LocalDay(c, t)) * DAY - (t + c.offset) >= 0 by {
        assert LocalDay(c, t) < FirstUsable(c, LocalDay(c, t));
      }
      FirstUsable(c, LocalDay(c, t)) * DAY - (t + c.offset)
    else 0
  }

  /**
   Advancing meets the count in a Galois connection: for every t from start on, the result
   is at or before t exactly when n of business time has passed by t.
   */
  method AddBusiness(start: int, n: int, c: Calendar) returns (r: int)
    requires n > 0 ==> HasUsableWeekday(c)
    ensures Reaches(c, start, n, r)
  {
    if n <= 0 {
      return start;
    }
    if !c.weekends && c.holidays == {} && c.excludedDays == {} {
      r := start + n;
      forall t | start <= t ensures Measure(c, None, start, t) == 0 {
        MeasureAllOrNothing(c, None, start, t);
      }
      return;
    }
    r := start;
    var remaining := n;
    while remaining > 0
      invariant start <= r && 0 <= remaining
      invariant if remaining > 0 then Active(c, start, r) + remaining == n else Reaches(c, start, n, r)
      decreases remaining, Idle(c, r)
    {
      if DayExcluded(c, LocalDay(c, r)) {
        ghost var before := r;
        r := SkipExcludedDays(r, c);
        ActiveAdds(c, start, before, r);
      } else {
        var nextDay := (LocalDay(c, r) + 1) * DAY - c.offset;
        var leftToday := nextDay - r;
        if remaining <= leftToday {
          LastDay(c, start, n, r, remaining);
          r := r + remaining;
          remaining := 0;
        } else {
          UsableDayCounts(c, r, nextDay);
          ActiveAdds(c, start, r, nextDay);
          remaining := remaining - leftToday;
          r := nextDay;
        }
      }
    }
  }

  // ---------- When there is a result at all ----------

  lemma UsableInstantReaches(c: Calendar, t: int)
    requires !DayExcluded(c, LocalDay(c, t))
    ensures Reaches(c, t, 1, t + 1)
  {
    LastDay(c, t, 1, t, 1);
  }

  lemma SkipThenReach(c: Calendar, s: int, u: int, n: int, r: int)
    requires s <= u && Active(c, s, u) == 0 && n > 0 && Reaches(c, u, n, r)
    ensures Reaches(c, s, n, r)
  {
    forall t | s <= t ensures r <= t <==> n <= Active(c, s, t) {
      if t < u {
        ActiveAdds(c, s, t, u);
      } else {
        ActiveAdds(c, s, u, t);
      }
    }
  }

  lemma {:induction false} SomeInstantReaches(c: Calendar, s: int, n: nat) returns (r: int)
    requires n > 0 ==> HasUsableWeekday(c)
    ensures Reaches(c, s, n, r)
    decreases n, if DayExcluded(c, LocalDay(c, s)) then 1 else 0
  {
    if n == 0 {
      r := s;
    } else if DayExcluded(c, LocalDay(c, s)) {
      var u := FirstUsable(c, LocalDay(c, s));
      SkippingIsFree(c, s, u);
      assert LocalDay(c, u * DAY - c.offset) == u;
      r := SomeInstantReaches(c, u * DAY - c.offset, n);
      SkipThenReach(c, s, u * DAY - c.offset, n, r);
    } else {
      UsableInstantReaches(c, s);
      r := SomeInstantReaches(c, s + 1, n - 1);
      AdvancesCompose(c, s, 1, n - 1, s + 1, r);
    }
  }

  lemma WeekdaysAllExcluded(c: Calendar, d: int)
    requires !HasUsableWeekday(c)
    ensures WeekdayExcluded(c, d)
  {
    assert WeekdayExcluded(c, d % 7);
    assert Weekday(d) == Weekday(d % 7);
  }

  /** There is a result exactly when nothing is asked for or some weekday counts, however many holidays there are. */
  lemma ReachableIffUsableWeekday(c: Calendar, s: int, n: int)
    ensures (exists r :: Reaches(c, s, n, r)) <==> n <= 0 || HasUsableWeekday(c)
  {
    if n <= 0 {
      assert Reaches(c, s, n, s);
    } else if HasUsableWeekday(c) {
      var r := SomeInstantReaches(c, s, n);
    } else {
      forall r ensures !Reaches(c, s, n, r) {
        if s <= r {
          forall t | s <= t < r ensures Excluded(c, None, t) {
            WeekdaysAllExcluded(c, LocalDay(c, t));
          }
          MeasureAllOrNothing(c, None, s, r);
          assert Active(c, s, r) == 0;
        }
      }
    }
  }
}
