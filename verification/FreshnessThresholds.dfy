/** Thresholds for how long a table may go without an update, from the gaps between past updates. */
module FreshnessThresholds {
  import opened Wrappers
  import opened BusinessTime
  import P = Percentiles

  const MIN_FRESHNESS_GAPS := 5
  const MAX_FRESHNESS_GAPS := 40

  datatype Params = Params(
    upperPercentile: real, floorMultiplier: real, lowerPercentile: real, stalenessFactor: real,
    calendar: Calendar, window: Option<Window>)

  datatype Threshold = Threshold(lower: Option<real>, upper: real, staleness: real, lastUpdate: int)

  /** Fewer completed gaps than needed; the number found is reported. */
  datatype NotEnoughData = NotEnoughData(found: nat)

  /** What the percentile function accepts. */
  predicate ValidParams(p: Params) {
    0.0 <= p.upperPercentile <= 100.0 && 0.0 <= p.lowerPercentile <= 100.0
  }

  predicate HasExclusions(p: Params) {
    p.calendar.weekends || p.calendar.holidays != {} || p.calendar.excludedDays != {} || p.window.Some?
  }

  function Larger(a: real, b: real): real { if a >= b then a else b }

  /** Whole minutes between two updates. */
  function RawGap(a: int, b: int): real { ((b - a) / MINUTE) as real }

  function Minutes(t: int): real { t as real / MINUTE as real }

  function Gap(p: Params, a: int, b: int): real {
    if HasExclusions(p) then Larger(RawGap(a, b) - Minutes(Measure(p.calendar, p.window, a, b)), 0.0)
    else RawGap(a, b)
  }

  /** Gaps between consecutive updates, oldest first. */
  function Gaps(p: Params, times: seq<int>): (gaps: seq<real>)
    ensures |gaps| == if |times| > 0 then |times| - 1 else 0
  {
    seq(if |times| > 0 then |times| - 1 else 0, i requires 0 <= i < |times| - 1 => Gap(p, times[i], times[i + 1]))
  }

  function Recent(gaps: seq<real>): seq<real> {
    if |gaps| > MAX_FRESHNESS_GAPS then gaps[|gaps| - MAX_FRESHNESS_GAPS..] else gaps
  }

  function FromGaps(p: Params, gaps: seq<real>, lastUpdate: int): Threshold
    requires ValidParams(p) && gaps != []
  {
    var lower := P.Percentile(gaps, p.lowerPercentile);
    Threshold(
      if lower <= 0.0 then None else Some(lower),
      Larger(P.Percentile(gaps, p.upperPercentile), P.Scale(p.floorMultiplier, P.Max(gaps))),
      P.Scale(p.stalenessFactor, P.Percentile(gaps, 50.0)),
      lastUpdate)
  }

  function Thresholds(p: Params, times: seq<int>): Result<Threshold, NotEnoughData>
    requires ValidParams(p)
  {
    if |times| - 1 < MIN_FRESHNESS_GAPS then Failure(NotEnoughData(if |times| > 0 then |times| - 1 else 0))
    else Success(FromGaps(p, Recent(Gaps(p, times)), times[|times| - 1]))
  }

  method CorrectedGap(raw: real, a: int, b: int, p: Params) returns (gap: real)
    requires raw == RawGap(a, b) && HasExclusions(p)
    ensures gap == Gap(p, a, b)
  {
    var excluded := CountExcluded(a, b, p.calendar, p.window);
    gap := Larger(raw - Minutes(excluded), 0.0);
  }

  /** Raw gaps corrected in place, one after the other. */
  method CorrectGaps(gaps: array<real>, times: seq<int>, p: Params)
    requires gaps.Length == |times| - 1 && HasExclusions(p)
    requires forall k :: 0 <= k < gaps.Length ==> gaps[k] == RawGap(times[k], times[k + 1])
    modifies gaps
    ensures forall k :: 0 <= k < gaps.Length ==> gaps[k] == Gap(p, times[k], times[k + 1])
  {
    for i := 0 to gaps.Length
      invariant forall k :: 0 <= k < gaps.Length ==>
                  gaps[k] == if k < i then Gap(p, times[k], times[k + 1]) else RawGap(times[k], times[k + 1])
    {
      var gap := CorrectedGap(gaps[i], times[i], times[i + 1], p);
      gaps[i] := gap;
    }
  }

  lemma GapsAre(gaps: seq<real>, times: seq<int>, p: Params)
    requires |gaps| == |times| - 1 && forall k :: 0 <= k < |gaps| ==> gaps[k] == Gap(p, times[k], times[k + 1])
    ensures gaps == Gaps(p, times)
  {
  }

  method CompletedGaps(times: seq<int>, p: Params) returns (gaps: array<real>)
    requires |times| > 0
    ensures fresh(gaps) && gaps[..] == Gaps(p, times)
  {
    gaps := new real[|times| - 1](i requires 0 <= i < |times| - 1 => RawGap(times[i], times[i + 1]));
    if HasExclusions(p) {
      CorrectGaps(gaps, times, p);
    }
    GapsAre(gaps[..], times, p);
  }

  method GetFreshnessGapThreshold(times: seq<int>, p: Params) returns (r: Result<Threshold, NotEnoughData>)
    requires ValidParams(p)
    ensures r == Thresholds(p, times)
  {
    if |times| - 1 < MIN_FRESHNESS_GAPS {
      return Failure(NotEnoughData(if |times| > 0 then |times| - 1 else 0));
    }
    var completed := CompletedGaps(times, p);
    var gaps := completed[..];
    if |gaps| > MAX_FRESHNESS_GAPS {
      gaps := gaps[|gaps| - MAX_FRESHNESS_GAPS..];
    }
    assert gaps == Recent(Gaps(p, times));
    r := Success(FromGaps(p, gaps, times[|times| - 1]));
  }

  // ---------- What the thresholds promise ----------

  predicate Chronological(times: seq<int>) { forall i, j :: 0 <= i < j < |times| ==> times[i] <= times[j] }

  lemma GapsAreNotNegative(p: Params, times: seq<int>)
    requires Chronological(times) || HasExclusions(p)
    ensures forall x :: x in Gaps(p, times) ==> x >= 0.0
    ensures forall x :: x in Recent(Gaps(p, times)) ==> x >= 0.0
  {
    var gaps := Gaps(p, times);
    forall i | 0 <= i < |gaps| ensures gaps[i] >= 0.0 {
      assert Chronological(times) ==> (times[i + 1] - times[i]) / MINUTE >= 0;
    }
    assert forall x :: x in Recent(gaps) ==> x in gaps;
  }

  /**
   Thresholds are ordered: for a lower percentile not above the upper, a floor of at least
   the largest gap and a factor in [0, 1], both the lower threshold and the staleness
   threshold lie between zero and the upper one. Failure means too few gaps and nothing else.
   */
  lemma ThresholdsAreOrdered(p: Params, times: seq<int>)
    requires ValidParams(p) && (Chronological(times) || HasExclusions(p))
    requires p.lowerPercentile <= p.upperPercentile && 1.0 <= p.floorMultiplier && 0.0 <= p.stalenessFactor <= 1.0
    ensures var r := Thresholds(p, times);
            && (r.Failure? <==> |times| <= MIN_FRESHNESS_GAPS)
            && (r.Success? ==>
                  && 0.0 <= r.value.staleness <= r.value.upper
                  && (r.value.lower.Some? ==> 0.0 < r.value.lower.value <= r.value.upper)
                  && forall x :: x in Recent(Gaps(p, times)) ==> x <= r.value.upper)
  {
    if |times| > MIN_FRESHNESS_GAPS {
      GapsAreNotNegative(p, times);
      FromGapsIsOrdered(p, Recent(Gaps(p, times)), times[|times| - 1]);
    }
  }

  lemma FromGapsIsOrdered(p: Params, gaps: seq<real>, lastUpdate: int)
    requires ValidParams(p) && gaps != [] && forall x :: x in gaps ==> x >= 0.0
    requires p.lowerPercentile <= p.upperPercentile && 1.0 <= p.floorMultiplier && 0.0 <= p.stalenessFactor <= 1.0
    ensures var t := FromGaps(p, gaps, lastUpdate);
            && 0.0 <= t.staleness <= t.upper && (t.lower.Some? ==> 0.0 < t.lower.value <= t.upper)
            && forall x :: x in gaps ==> x <= t.upper
  {
    var largest := P.Max(gaps);
    P.PercentilesAreOrdered(gaps, p.lowerPercentile, p.upperPercentile);
    P.PercentileWithin(gaps, 50.0, 0.0, largest);
    P.ScaleIsMonotone(0.0, p.stalenessFactor, P.Percentile(gaps, 50.0));
    P.ScaleIsMonotone(p.stalenessFactor, 1.0, P.Percentile(gaps, 50.0));
    P.ScaleIsMonotone(1.0, p.floorMultiplier, largest);
    assert largest <= FromGaps(p, gaps, lastUpdate).upper;
  }

  /**
   A gap is what is left of the whole minutes between two updates without the excluded time
   between them, and never negative; that nothing is excluded is no case of its own.
   */
  lemma GapIsBusinessTime(p: Params, a: int, b: int)
    requires a <= b
    ensures var left := ((b - a) / MINUTE) as real - Measure(p.calendar, p.window, a, b) as real / MINUTE as real;
            Gap(p, a, b) == if left >= 0.0 then left else 0.0
  {
    if !HasExclusions(p) {
      MeasureAllOrNothing(p.calendar, p.window, a, b);
      assert (b - a) / MINUTE >= 0;
    }
  }

  /** The gaps that count: those between consecutive updates, the last forty at most, oldest first. */
  lemma RecentGapsAre(p: Params, times: seq<int>, i: nat)
    requires |times| > 0 && i < |Recent(Gaps(p, times))|
    ensures |Recent(Gaps(p, times))| == if |times| - 1 > 40 then 40 else |times| - 1
    ensures var k := |times| - 1 - |Recent(Gaps(p, times))| + i;
            Recent(Gaps(p, times))[i] == Gap(p, times[k], times[k + 1])
  {
  }

  /**
   What the thresholds are: of the recent gaps in order of size, those up to the share of the
   lower percentile are not above the lower threshold and those from there on not below it; so
   for the upper percentile, unless the largest gap with its factor is higher still, and for the
   half, of which the staleness threshold is a factor.
   */
  lemma ThresholdsSeparateGaps(p: Params, times: seq<int>, i: nat) returns (low: real, high: real, median: real)
    requires ValidParams(p) && |times| > MIN_FRESHNESS_GAPS && i < |Recent(Gaps(p, times))|
    ensures Thresholds(p, times).Success?
    ensures var t, gaps := Thresholds(p, times).value, P.Sort(Recent(Gaps(p, times)));
            && t.lower == (if low <= 0.0 then None else Some(low))
            && t.upper == Larger(high, P.Scale(p.floorMultiplier, gaps[|gaps| - 1]))
            && t.staleness == P.Scale(p.stalenessFactor, median) && t.lastUpdate == times[|times| - 1]
            && P.Separates(gaps, p.lowerPercentile, low, i) && P.Separates(gaps, p.upperPercentile, high, i)
            && P.Separates(gaps, 50.0, median, i)
  {
    low, high, median := FromGapsSeparate(p, Recent(Gaps(p, times)), times[|times| - 1], i);
  }

  lemma FromGapsSeparate(p: Params, gaps: seq<real>, lastUpdate: int, i: nat) returns (low: real, high: real, median: real)
    requires ValidParams(p) && gaps != []
    ensures var t, sorted := FromGaps(p, gaps, lastUpdate), P.Sort(gaps);
            && t.lower == (if low <= 0.0 then None else Some(low))
            && t.upper == Larger(high, P.Scale(p.floorMultiplier, sorted[|sorted| - 1]))
            && t.staleness == P.Scale(p.stalenessFactor, median) && t.lastUpdate == lastUpdate
            && P.Separates(sorted, p.lowerPercentile, low, i) && P.Separates(sorted, p.upperPercentile, high, i)
            && P.Separates(sorted, 50.0, median, i)
  {
    low, high, median := P.Percentile(gaps, p.lowerPercentile), P.Percentile(gaps, p.upperPercentile), P.Percentile(gaps, 50.0);
    P.PercentileSeparates(gaps, p.lowerPercentile, i);
    P.PercentileSeparates(gaps, p.upperPercentile, i);
    P.PercentileSeparates(gaps, 50.0, i);
    P.LargestIsLast(gaps);
  }

  /** Only the last 41 updates matter: older gaps have aged out. */
  lemma OldGapsAgeOut(p: Params, times: seq<int>)
    requires ValidParams(p) && |times| > MAX_FRESHNESS_GAPS
    ensures Thresholds(p, times) == Thresholds(p, times[|times| - (MAX_FRESHNESS_GAPS + 1)..])
  {
    var last := times[|times| - (MAX_FRESHNESS_GAPS + 1)..];
    assert Recent(Gaps(p, times)) == Recent(Gaps(p, last));
  }
}
