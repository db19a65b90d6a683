/** Inference of a table's update schedule: active weekdays, a daily window and how well they fit. */
module FreshnessSchedule {
  import opened Wrappers
  import opened BusinessTime
  import P = Percentiles
  import S = Sorting

  datatype Frequency = SubDaily | Daily | Weekly | NoFrequency
  datatype Stage = Training | Tentative | Active | Irregular

  /** A window of hours of the day, wrapping around midnight if it starts after it ends. */
  datatype Hours = Hours(start: real, end: real)

  datatype Schedule = Schedule(
    stage: Stage, frequency: Frequency, activeDays: set<int>, window: Option<Hours>, confidence: real, numEvents: nat)

  const EVERY_DAY: set<int> := {0, 1, 2, 3, 4, 5, 6}

  function Local(offset: int): Calendar { Calendar(offset, false, {}, {}) }

  function DayOfWeek(offset: int, t: int): (d: int)
    ensures 0 <= d < 7
  {
    Weekday(LocalDay(Local(offset), t))
  }

  /** Hour of the day, to the minute. */
  function Hour(offset: int, t: int): (h: real)
    ensures 0.0 <= h < 24.0
  {
    var minute := TimeOfDay(Local(offset), t) / MINUTE;
    assert 0 <= minute < 1440;
    minute as real / 60.0
  }

  /** Hours of a day. */
  predicate InDay(hours: seq<real>) { forall i :: 0 <= i < |hours| ==> 0.0 <= hours[i] < 24.0 }

  predicate InWindow(h: real, w: Hours) {
    InTimeWindow(h, w.start, w.end)
  }

  // ---------- The window ----------

  function Mod24(x: real): real { x - 24.0 * (x / 24.0).Floor as real }

  /** Half a day on, so that a cluster around midnight becomes one around noon. */
  function Shift(h: real): real { Mod24(h + 12.0) }

  function Unshift(low: real, high: real): Hours { Hours(Mod24(low - 12.0), Mod24(high - 12.0)) }

  /** Both ends are hours of a day. */
  predicate WindowInDay(w: Hours) { 0.0 <= w.start < 24.0 && 0.0 <= w.end < 24.0 }

  function Shifted(hours: seq<real>): (r: seq<real>)
    ensures |r| == |hours|
  {
    if hours == [] then [] else [Shift(hours[0])] + Shifted(hours[1..])
  }

  /** Hours of the updates on the given weekdays. */
  function HoursOn(offset: int, times: seq<int>, days: set<int>): (hours: seq<real>)
    ensures |hours| <= |times| && InDay(hours)
  {
    if times == [] then []
    else (if DayOfWeek(offset, times[0]) in days then [Hour(offset, times[0])] else []) + HoursOn(offset, times[1..], days)
  }

  function NotBefore(from: real): real -> bool { (h: real) => h >= from }

  function CountFrom(hours: seq<real>, from: real): nat { S.Count(hours, NotBefore(from)) }

  /** More than a quarter late in the evening and more than a quarter early in the morning. */
  predicate AroundMidnight(hours: seq<real>)
    requires hours != []
  {
    && CountFrom(hours, 22.0) as real / |hours| as real > 0.25
    && (|hours| - CountFrom(hours, 3.0)) as real / |hours| as real > 0.25
  }

  function DetectUpdateWindow(offset: int, times: seq<int>, activeDays: set<int>): Option<Hours> {
    var hours := HoursOn(offset, times, activeDays);
    if |hours| < 10 then None else Some(WindowOf(hours))
  }

  function WindowOf(hours: seq<real>): Hours
    requires hours != []
  {
    if AroundMidnight(hours) then
      Unshift(P.Percentile(Shifted(hours), 10.0), P.Percentile(Shifted(hours), 90.0))
    else Hours(P.Percentile(hours, 10.0), P.Percentile(hours, 90.0))
  }

  function In(w: Hours): real -> bool { (h: real) => InWindow(h, w) }

  function CountInWindow(hours: seq<real>, w: Hours): nat { S.Count(hours, In(w)) }

  lemma Mod24Is(x: real)
    ensures 0.0 <= x < 24.0 ==> Mod24(x) == x
    ensures 24.0 <= x < 48.0 ==> Mod24(x) == x - 24.0
    ensures -24.0 <= x < 0.0 ==> Mod24(x) == x + 24.0
  {
    assert 0.0 <= x < 24.0 ==> (x / 24.0).Floor == 0;
    assert 24.0 <= x < 48.0 ==> (x / 24.0).Floor == 1;
    assert -24.0 <= x < 0.0 ==> (x / 24.0).Floor == -1;
  }

  /** Undoing the shift of a range gives a window, wrapping or not, that holds exactly the same hours. */
  lemma UnshiftedWindow(low: real, high: real, h: real)
    requires 0.0 <= low <= high < 24.0 && 0.0 <= h < 24.0
    ensures InWindow(h, Unshift(low, high)) <==> low <= Shift(h) <= high
    ensures WindowInDay(Unshift(low, high)) && 0.0 <= Shift(h) < 24.0
  {
    Mod24Is(low - 12.0);
    Mod24Is(high - 12.0);
    Mod24Is(h + 12.0);
  }

  lemma {:induction false} ShiftedCounts(hours: seq<real>, low: real, high: real)
    requires 0.0 <= low <= high < 24.0 && InDay(hours)
    ensures CountInWindow(hours, Unshift(low, high)) == P.CountIn(Shifted(hours), low, high)
  {
    if hours != [] {
      UnshiftedWindow(low, high, hours[0]);
      ShiftedCounts(hours[1..], low, high);
    }
  }

  lemma {:induction false} ShiftedInDay(hours: seq<real>)
    requires InDay(hours)
    ensures InDay(Shifted(hours))
  {
    if hours != [] {
      Mod24Is(hours[0] + 12.0);
      ShiftedInDay(hours[1..]);
    }
  }

  lemma {:induction false} PlainCounts(hours: seq<real>, low: real, high: real)
    requires low <= high
    ensures CountInWindow(hours, Hours(low, high)) == P.CountIn(hours, low, high)
  {
    if hours != [] {
      PlainCounts(hours[1..], low, high);
    }
  }

  /** The 10th and 90th percentiles of hours of the day are hours of the day. */
  lemma PercentilesInDay(hours: seq<real>)
    requires hours != [] && InDay(hours)
    ensures 0.0 <= P.Percentile(hours, 10.0) <= P.Percentile(hours, 90.0) < 24.0
  {
    var latest := P.Max(hours);
    assert latest < 24.0;
    assert forall h :: h in hours ==> 0.0 <= h <= latest;
    P.PercentilesAreOrdered(hours, 10.0, 90.0);
    P.PercentileWithin(hours, 10.0, 0.0, latest);
    P.PercentileWithin(hours, 90.0, 0.0, latest);
  }

  /**
   The detected window holds at least n - 2 ceil((n - 1) / 10) of the n hours it was made
   from, also when the hours were shifted by half a day and the window shifted back.
   */
  lemma WindowHoldsMost(hours: seq<real>)
    requires hours != [] && InDay(hours)
    ensures CountInWindow(hours, WindowOf(hours)) >= |hours| - 2 * P.Tenth(|hours|)
    ensures WindowInDay(WindowOf(hours))
  {
    if AroundMidnight(hours) {
      ShiftedWindowHoldsMost(hours);
    } else {
      PercentilesInDay(hours);
      P.TenToNinetyHoldsMost(hours);
      PlainCounts(hours, P.Percentile(hours, 10.0), P.Percentile(hours, 90.0));
    }
  }

  lemma ShiftedWindowHoldsMost(hours: seq<real>)
    requires hours != [] && InDay(hours)
    ensures var low, high := P.Percentile(Shifted(hours), 10.0), P.Percentile(Shifted(hours), 90.0);
            CountInWindow(hours, Unshift(low, high)) >= |hours| - 2 * P.Tenth(|hours|) && WindowInDay(Unshift(low, high))
  {
    var shifted := Shifted(hours);
    var low, high := P.Percentile(shifted, 10.0), P.Percentile(shifted, 90.0);
    ShiftedInDay(hours);
    PercentilesInDay(shifted);
    P.TenToNinetyHoldsMost(shifted);
    ShiftedCounts(hours, low, high);
    UnshiftedWindow(low, high, 0.0);
  }

  predicate AtNight(hours: seq<real>) { forall i :: 0 <= i < |hours| ==> hours[i] >= 22.0 || hours[i] < 3.0 }

  lemma {:induction false} ShiftedNight(hours: seq<real>)
    requires InDay(hours) && AtNight(hours)
    ensures forall i :: 0 <= i < |hours| ==> 10.0 <= Shifted(hours)[i] < 15.0
  {
    if hours != [] {
      Mod24Is(hours[0] + 12.0);
      ShiftedNight(hours[1..]);
    }
  }

  /**
   What the shift is for: updates that all come between ten in the evening and three in the
   morning, many on either side of midnight, give a window that holds no other hour.
   */
  lemma NightWindowStaysAtNight(hours: seq<real>, h: real)
    requires hours != [] && InDay(hours) && AtNight(hours) && AroundMidnight(hours)
    requires 3.0 <= h < 22.0
    ensures !InWindow(h, WindowOf(hours))
  {
    var shifted := Shifted(hours);
    var latest := P.Max(shifted);
    ShiftedNight(hours);
    assert forall x :: x in shifted ==> 10.0 <= x <= latest;
    P.PercentileWithin(shifted, 10.0, 10.0, latest);
    P.PercentileWithin(shifted, 90.0, 10.0, latest);
    P.PercentilesAreOrdered(shifted, 10.0, 90.0);
    UnshiftedWindow(P.Percentile(shifted, 10.0), P.Percentile(shifted, 90.0), h);
    Mod24Is(h + 12.0);
  }

  function LateCount(hours: seq<real>): nat { S.Count(hours, (h: real) => h >= 22.0) }

  function EarlyCount(hours: seq<real>): nat { S.Count(hours, (h: real) => h < 3.0) }

  lemma {:induction false} NightCounts(hours: seq<real>)
    ensures LateCount(hours) == CountFrom(hours, 22.0) && EarlyCount(hours) == |hours| - CountFrom(hours, 3.0)
  {
    if hours != [] {
      NightCounts(hours[1..]);
    }
  }

  /** Comparing shares is comparing cross products. */
  lemma ShareIs(m: nat, n: nat, a: nat, b: nat)
    requires n > 0 && b > 0
    ensures m as real / n as real >= a as real / b as real <==> b * m >= a * n
    ensures m as real / n as real <= a as real / b as real <==> b * m <= a * n
  {
    var q, r, k := m as real / n as real, a as real / b as real, n as real * b as real;
    assert q * n as real == m as real && r * b as real == a as real;
    ProductOfShare(q, m, n, b as real);
    ProductOfShare(r, a, b, n as real);
    assert q * k == (b * m) as real && r * k == (a * n) as real;
    Compare(q, r, k);
    Compare(r, q, k);
  }

  lemma ProductOfShare(q: real, m: nat, n: nat, k: real)
    requires q * n as real == m as real
    ensures q * (n as real * k) == m as real * k
  {
  }

  lemma Compare(q: real, r: real, k: real)
    requires k > 0.0
    ensures q >= r <==> q * k >= r * k
  {
    if q >= r {
      assert (q - r) * k >= 0.0;
    } else {
      assert (r - q) * k > 0.0;
    }
  }

  lemma AroundMidnightByCounts(hours: seq<real>)
    requires hours != []
    ensures AroundMidnight(hours) <==> 4 * LateCount(hours) > |hours| && 4 * EarlyCount(hours) > |hours|
  {
    NightCounts(hours);
    ShareIs(LateCount(hours), |hours|, 1, 4);
    ShareIs(EarlyCount(hours), |hours|, 1, 4);
    assert 1 as real / 4 as real == 0.25;
  }

  /**
   When a window may wrap around midnight: only if more than a quarter of the updates come from
   ten in the evening on and more than a quarter before three in the morning. If so many do and
   none comes in between, the window holds no hour in between.
   */
  lemma WindowByCounts(hours: seq<real>, h: real)
    requires hours != [] && InDay(hours)
    ensures 4 * LateCount(hours) > |hours| && 4 * EarlyCount(hours) > |hours| && AtNight(hours) && 3.0 <= h < 22.0 ==>
              !InWindow(h, WindowOf(hours))
    ensures 4 * LateCount(hours) <= |hours| || 4 * EarlyCount(hours) <= |hours| ==>
              WindowOf(hours) == Hours(P.Percentile(hours, 10.0), P.Percentile(hours, 90.0))
              && WindowOf(hours).start <= WindowOf(hours).end
  {
    AroundMidnightByCounts(hours);
    if AroundMidnight(hours) && AtNight(hours) && 3.0 <= h < 22.0 {
      NightWindowStaysAtNight(hours, h);
    }
    P.PercentilesAreOrdered(hours, 10.0, 90.0);
  }

  // ---------- Confidence ----------

  predicate Matches(offset: int, t: int, activeDays: set<int>, window: Option<Hours>) {
    DayOfWeek(offset, t) in activeDays && (window.Some? ==> InWindow(Hour(offset, t), window.value))
  }

  function Matching(offset: int, activeDays: set<int>, window: Option<Hours>): int -> bool {
    (t: int) => Matches(offset, t, activeDays, window)
  }

  function MatchCount(offset: int, times: seq<int>, activeDays: set<int>, window: Option<Hours>): (n: nat)
    ensures n <= |times|
  {
    S.Count(times, Matching(offset, activeDays, window))
  }

  function Confidence(offset: int, times: seq<int>, activeDays: set<int>, window: Option<Hours>): real {
    if times == [] then 0.0 else MatchCount(offset, times, activeDays, window) as real / |times| as real
  }

  method ComputeScheduleConfidence(offset: int, times: seq<int>, schedule: Schedule) returns (confidence: real)
    ensures confidence == Confidence(offset, times, schedule.activeDays, schedule.window)
  {
    if times == [] {
      return 0.0;
    }
    var matching := 0;
    for i := 0 to |times|
      invariant matching == MatchCount(offset, times[..i], schedule.activeDays, schedule.window)
    {
      S.CountPrefix(times, i, Matching(offset, schedule.activeDays, schedule.window));
      if DayOfWeek(offset, times[i]) !in schedule.activeDays {
        continue;
      }
      if schedule.window.Some? {
        if !InWindow(Hour(offset, times[i]), schedule.window.value) {
          continue;
        }
      }
      matching := matching + 1;
    }
    assert times[..|times|] == times;
    confidence := matching as real / |times| as real;
  }

  lemma {:induction false} MatchesAreHoursInWindow(offset: int, times: seq<int>, days: set<int>, window: Option<Hours>)
    ensures MatchCount(offset, times, days, window) ==
            match window
            case None => |HoursOn(offset, times, days)|
            case Some(w) => CountInWindow(HoursOn(offset, times, days), w)
  {
    if times != [] {
      MatchesAreHoursInWindow(offset, times[1..], days, window);
      var rest := HoursOn(offset, times[1..], days);
      assert [] + rest == rest && ([Hour(offset, times[0])] + rest)[1..] == rest;
    }
  }

  lemma {:induction false} EveryDayTakesAll(offset: int, times: seq<int>)
    ensures |HoursOn(offset, times, EVERY_DAY)| == |times|
  {
    if times != [] {
      EveryDayTakesAll(offset, times[1..]);
      assert DayOfWeek(offset, times[0]) in EVERY_DAY;
    }
  }

  /** Of the updates on active days at most 2 ceil((n - 1) / 10) do not match the detected window. */
  lemma MostActiveDayUpdatesMatch(offset: int, times: seq<int>, days: set<int>)
    ensures var n := |HoursOn(offset, times, days)|;
            MatchCount(offset, times, days, DetectUpdateWindow(offset, times, days)) >= n - if n < 10 then 0 else 2 * P.Tenth(n)
  {
    MatchesAreHoursInWindow(offset, times, days, DetectUpdateWindow(offset, times, days));
    if |HoursOn(offset, times, days)| >= 10 {
      WindowHoldsMost(HoursOn(offset, times, days));
    }
  }

  // ---------- Active days ----------

  function OnDay(offset: int, day: int): int -> bool { (t: int) => DayOfWeek(offset, t) == day }

  function DayCount(offset: int, times: seq<int>, day: int): nat { S.Count(times, OnDay(offset, day)) }

  /** Whole days between the first and the last update. */
  function RangeDays(times: seq<int>): int
    requires times != []
  {
    (times[|times| - 1] - times[0]) / DAY
  }

  /** At least one update in every second week observed. */
  predicate HitsOften(offset: int, times: seq<int>, day: int)
    requires times != []
  {
    var weeks := if RangeDays(times) / 7 > 1 then RangeDays(times) / 7 else 1;
    DayCount(offset, times, day) as real / weeks as real >= 0.5
  }

  function OftenHit(offset: int, times: seq<int>): (days: set<int>)
    requires times != []
    ensures days <= EVERY_DAY
  {
    set day | 0 <= day < 7 && HitsOften(offset, times, day)
  }

  /** Updates on one weekday of the local calendar. */
  function WeekdayCount(offset: int, times: seq<int>, day: int): nat {
    S.Count(times, (t: int) => ((t + offset) / DAY + 3) % 7 == day)
  }

  lemma {:induction false} CountsByCalendar(offset: int, times: seq<int>, day: int)
    ensures DayCount(offset, times, day) == WeekdayCount(offset, times, day)
  {
    if times != [] {
      CountsByCalendar(offset, times[1..], day);
    }
  }

  /** A day is hit often if twice its updates are at least the whole weeks observed, or there is one and at most one such week. */
  lemma OftenHitByCounts(offset: int, times: seq<int>, day: int)
    requires times != []
    ensures var weeks := (times[|times| - 1] - times[0]) / (7 * DAY);
            day in OftenHit(offset, times) <==> 0 <= day < 7 && 2 * WeekdayCount(offset, times, day) >= Max(weeks, 1)
  {
    CountsByCalendar(offset, times, day);
    assert RangeDays(times) / 7 == (times[|times| - 1] - times[0]) / (7 * DAY);
    ShareIs(DayCount(offset, times, day), Max(RangeDays(times) / 7, 1), 1, 2);
    assert 1 as real / 2 as real == 0.5;
  }

  method CountDays(offset: int, times: seq<int>) returns (counts: map<int, nat>)
    ensures forall day :: 0 <= day < 7 ==> day in counts && counts[day] == DayCount(offset, times, day)
  {
    counts := map[0 := 0, 1 := 0, 2 := 0, 3 := 0, 4 := 0, 5 := 0, 6 := 0];
    for i := 0 to |times|
      invariant forall day :: 0 <= day < 7 ==> day in counts && counts[day] == DayCount(offset, times[..i], day)
    {
      var today := DayOfWeek(offset, times[i]);
      forall day | 0 <= day < 7
        ensures DayCount(offset, times[..i + 1], day) == DayCount(offset, times[..i], day) + if today == day then 1 else 0
      {
        S.CountPrefix(times, i, OnDay(offset, day));
      }
      counts := counts[today := counts[today] + 1];
    }
    assert times[..|times|] == times;
  }

  /** The days hit often, or nothing if the history is too short or no day is hit often. */
  method DetectActiveDays(offset: int, times: seq<int>) returns (r: Option<set<int>>)
    ensures r == if |times| >= 2 && RangeDays(times) >= 21 && OftenHit(offset, times) != {}
                 then Some(OftenHit(offset, times)) else None
  {
    if |times| < 2 {
      return None;
    }
    var rangeDays := RangeDays(times);
    if rangeDays < 21 {
      return None;
    }
    var dayCounts := CountDays(offset, times);
    var weeksObserved := if rangeDays / 7 > 1 then rangeDays / 7 else 1;
    var activeDays: set<int> := {};
    for day := 0 to 7
      invariant forall d :: d in activeDays <==> 0 <= d < day && HitsOften(offset, times, d)
    {
      var hitRate := dayCounts[day] as real / weeksObserved as real;
      if hitRate >= 0.5 {
        activeDays := activeDays + {day};
      }
    }
    assert activeDays == OftenHit(offset, times);
    r := if activeDays != {} then Some(activeDays) else None;
  }

  // ---------- The schedule ----------

  function GapHours(times: seq<int>): seq<real> {
    seq(if |times| > 0 then |times| - 1 else 0,
        i requires 0 <= i < |times| - 1 => ((times[i + 1] - times[i]) / MINUTE) as real / 60.0)
  }

  function ClassifyFrequency(gapHours: seq<real>): Frequency {
    if gapHours == [] then NoFrequency
    else
      var median := P.Percentile(gapHours, 50.0);
      if median < 6.0 then SubDaily else if median < 36.0 then Daily
      else if 120.0 < median < 240.0 then Weekly else NoFrequency
  }

  function StageOf(numEvents: nat, confidence: real): Stage {
    if numEvents < 20 then Tentative
    else if confidence >= 0.75 then Active
    else if confidence < 0.60 then Irregular
    else Tentative
  }

  /** A schedule is what its own days and window imply about the history. */
  predicate Fits(offset: int, times: seq<int>, s: Schedule) {
    && s.activeDays != {} && s.activeDays <= EVERY_DAY
    && s.window == DetectUpdateWindow(offset, times, s.activeDays)
    && s.numEvents == |times| && s.frequency == ClassifyFrequency(GapHours(times))
    && s.confidence == Confidence(offset, times, s.activeDays, s.window)
    && s.stage == StageOf(s.numEvents, s.confidence)
  }

  /**
   A schedule is inferred exactly from ten updates over three weeks on; its days are those
   hit often, or all seven when there are none.
   */
  method InferSchedule(offset: int, times: seq<int>) returns (r: Option<Schedule>)
    ensures r.Some? <==> |times| >= 10 && RangeDays(times) >= 21
    ensures r.Some? ==> Fits(offset, times, r.value)
    ensures r.Some? ==> r.value.activeDays == if OftenHit(offset, times) == {} then EVERY_DAY else OftenHit(offset, times)
  {
    if |times| < 10 {
      return None;
    }
    var frequency := ClassifyFrequency(GapHours(times));
    if RangeDays(times) < 21 {
      return None;
    }
    var detected := DetectActiveDays(offset, times);
    var activeDays := if detected.Some? then detected.value else EVERY_DAY;
    var window := DetectUpdateWindow(offset, times, activeDays);
    var preliminary := Schedule(Training, frequency, activeDays, window, 0.0, |times|);
    var confidence := ComputeScheduleConfidence(offset, times, preliminary);
    r := Some(preliminary.(confidence := confidence, stage := StageOf(|times|, confidence)));
  }

  // ---------- What an inferred schedule promises ----------

  /** Windows are hours of the day, and a confidence is a fraction. */
  lemma FittingScheduleIsSane(offset: int, times: seq<int>, s: Schedule)
    requires Fits(offset, times, s) && times != []
    ensures s.window.Some? ==> WindowInDay(s.window.value)
    ensures 0.0 <= s.confidence <= 1.0
    ensures s.window.Some? <==> |HoursOn(offset, times, s.activeDays)| >= 10
  {
    if s.window.Some? {
      WindowHoldsMost(HoursOn(offset, times, s.activeDays));
    }
    FractionWithin(MatchCount(offset, times, s.activeDays, s.window), |times|);
  }

  lemma FractionWithin(m: nat, n: nat)
    requires m <= n && n > 0
    ensures 0.0 <= m as real / n as real <= 1.0
  {
  }

  lemma StageOfShare(m: nat, n: nat)
    requires n > 0
    ensures var stage := StageOf(n, m as real / n as real);
            && (stage == Active <==> n >= 20 && 4 * m >= 3 * n)
            && (stage == Irregular <==> n >= 20 && 5 * m < 3 * n)
            && stage != Training
  {
    ShareIs(m, n, 3, 4);
    ShareIs(m, n, 3, 5);
    assert 3 as real / 4 as real == 0.75 && 3 as real / 5 as real == 0.60;
  }

  /** The stage by counts: active from three quarters of matching updates on, irregular below three fifths, both from twenty updates on. */
  lemma StageByCounts(offset: int, times: seq<int>, s: Schedule)
    requires Fits(offset, times, s) && times != []
    ensures var m := MatchCount(offset, times, s.activeDays, s.window);
            && (s.stage == Active <==> |times| >= 20 && 4 * m >= 3 * |times|)
            && (s.stage == Irregular <==> |times| >= 20 && 5 * m < 3 * |times|)
            && s.stage != Training
  {
    StageOfShare(MatchCount(offset, times, s.activeDays, s.window), |times|);
  }

  /** All gaps between consecutive updates lie within bounds, in hours. */
  predicate GapsWithin(times: seq<int>, low: int, high: int) {
    forall i :: 0 <= i < |times| - 1 ==> low * 60 * MINUTE <= times[i + 1] - times[i] < high * 60 * MINUTE
  }

  lemma GapHoursWithin(times: seq<int>, low: int, high: int)
    requires |times| >= 2 && GapsWithin(times, low, high)
    ensures low as real <= P.Percentile(GapHours(times), 50.0) < high as real
  {
    var gaps := GapHours(times);
    forall i | 0 <= i < |gaps| ensures low as real <= gaps[i] < high as real {
      WholeMinutes(times[i + 1] - times[i], low, high);
    }
    var largest := P.Max(gaps);
    assert forall x :: x in gaps ==> low as real <= x <= largest;
    P.PercentileWithin(gaps, 50.0, low as real, largest);
  }

  lemma WholeMinutes(gap: int, low: int, high: int)
    requires low * 60 * MINUTE <= gap < high * 60 * MINUTE
    ensures low as real <= (gap / MINUTE) as real / 60.0 < high as real
  {
    var minutes := gap / MINUTE;
    assert minutes * MINUTE <= gap < minutes * MINUTE + MINUTE;
    assert low * 60 <= minutes < high * 60;
  }

  /**
   The frequency of steady updates: sub-daily below six hours apart, daily from there to
   below 36, weekly between 121 and 240 hours, and none of these from 37 to 120 hours or beyond 240.
   */
  lemma SteadyFrequency(times: seq<int>)
    requires |times| >= 2
    ensures GapsWithin(times, 0, 6) ==> ClassifyFrequency(GapHours(times)) == SubDaily
    ensures GapsWithin(times, 6, 36) ==> ClassifyFrequency(GapHours(times)) == Daily
    ensures GapsWithin(times, 36, 120) ==> ClassifyFrequency(GapHours(times)) == NoFrequency
    ensures GapsWithin(times, 121, 240) ==> ClassifyFrequency(GapHours(times)) == Weekly
    ensures forall high :: high > 240 && GapsWithin(times, 240, high) ==> ClassifyFrequency(GapHours(times)) == NoFrequency
  {
    forall low, high | GapsWithin(times, low, high)
      ensures low as real <= P.Percentile(GapHours(times), 50.0) < high as real
    {
      GapHoursWithin(times, low, high);
    }
  }

  /** Three weeks are twenty-one days of twenty-four hours from the first update to the last. */
  lemma ThreeWeeks(times: seq<int>)
    requires times != []
    ensures RangeDays(times) >= 21 <==> times[|times| - 1] - times[0] >= 21 * 24 * 60 * MINUTE
  {
    assert DAY == 24 * 60 * MINUTE;
  }

  lemma FractionAtLeast(m: nat, n: nat)
    requires n > 0 && 5 * m >= 3 * n
    ensures m as real / n as real >= 0.60
  {
    assert m as real >= 0.60 * n as real;
  }

  /**
   An irregular stage needs more than a fifth of the updates, beyond a margin of two, on
   inactive days: the window alone never makes a schedule irregular.
   */
  lemma IrregularNeedsInactiveDays(offset: int, times: seq<int>, s: Schedule)
    requires Fits(offset, times, s) && s.stage == Irregular
    ensures |times| >= 20 && 5 * (|times| - |HoursOn(offset, times, s.activeDays)|) > |times| - 8
  {
    var n := |HoursOn(offset, times, s.activeDays)|;
    MostActiveDayUpdatesMatch(offset, times, s.activeDays);
    var matching := MatchCount(offset, times, s.activeDays, s.window);
    if 5 * matching >= 3 * |times| {
      FractionAtLeast(matching, |times|);
    }
    assert 5 * matching < 3 * |times|;
    assert matching >= n - (n + 8) / 5;
  }

  /** With all seven days active and at least twenty events a schedule is never irregular. */
  lemma EveryDayIsNeverIrregular(offset: int, times: seq<int>, s: Schedule)
    requires Fits(offset, times, s) && s.activeDays == EVERY_DAY && |times| >= 20
    ensures s.stage != Irregular && s.window.Some?
  {
    EveryDayTakesAll(offset, times);
    if s.stage == Irregular {
      IrregularNeedsInactiveDays(offset, times, s);
    }
  }
}
