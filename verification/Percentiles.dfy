/** Percentiles with linear interpolation, over exact numbers. */
module Percentiles {
  import S = Sorting

  function Value(): real -> real { (x: real) => x }

  function Sort(xs: seq<real>): (r: seq<real>)
    ensures |r| == |xs|
  {
    S.Sort(xs, Value())
  }

  predicate Sorted(xs: seq<real>) { forall i, j :: 0 <= i < j < |xs| ==> xs[i] <= xs[j] }

  lemma SortSorts(xs: seq<real>)
    ensures Sorted(Sort(xs))
  {
    S.SortSorts(xs, Value());
    var r := Sort(xs);
    forall i, j | 0 <= i < j < |r| ensures r[i] <= r[j] {
      assert Value()(r[i]) <= Value()(r[j]);
    }
  }

  function Scale(a: real, d: real): real { a * d }

  lemma ScaleIsMonotone(a: real, b: real, d: real)
    requires a <= b && d >= 0.0
    ensures Scale(a, d) <= Scale(b, d)
    ensures Scale(0.0, d) == 0.0 && Scale(1.0, d) == d
  {
  }

  function Between(a: real, b: real, f: real): real { a + Scale(f, b - a) }

  lemma BetweenIs(a: real, b: real, f: real)
    requires a <= b && 0.0 <= f <= 1.0
    ensures a <= Between(a, b, f) <= b && (f == 0.0 ==> Between(a, b, f) == a)
  {
    ScaleIsMonotone(0.0, f, b - a);
    ScaleIsMonotone(f, 1.0, b - a);
  }

  /** The value at a fractional index. */
  function At(v: seq<real>, k: real): real
    requires |v| > 0 && 0.0 <= k <= (|v| - 1) as real
  {
    var low := k.Floor;
    if low == |v| - 1 then v[low] else Between(v[low], v[low + 1], k - low as real)
  }

  /** Fractional index of a percentile, q given in hundredths. */
  function Index(n: nat, q: real): (k: real)
    requires n > 0 && 0.0 <= q <= 100.0
    ensures 0.0 <= k <= (n - 1) as real
  {
    ScaleIsMonotone(0.0, q / 100.0, (n - 1) as real);
    ScaleIsMonotone(q / 100.0, 1.0, (n - 1) as real);
    Scale(q / 100.0, (n - 1) as real)
  }

  function Percentile(xs: seq<real>, q: real): real
    requires |xs| > 0 && 0.0 <= q <= 100.0
  {
    At(Sort(xs), Index(|xs|, q))
  }

  /** Values before the index are not above the result, values from the index on not below it. */
  lemma AtSeparates(v: seq<real>, k: real, i: nat)
    requires |v| > 0 && Sorted(v) && 0.0 <= k <= (|v| - 1) as real && i < |v|
    ensures i as real <= k ==> v[i] <= At(v, k)
    ensures i as real >= k ==> v[i] >= At(v, k)
  {
    var low := k.Floor;
    assert i as real <= k ==> i <= low;
    assert i as real >= k ==> i >= low && (k > low as real ==> i > low);
    if low < |v| - 1 {
      BetweenIs(v[low], v[low + 1], k - low as real);
    }
  }

  lemma AtIsMonotone(v: seq<real>, j: real, k: real)
    requires |v| > 0 && Sorted(v) && 0.0 <= j <= k <= (|v| - 1) as real
    ensures At(v, j) <= At(v, k)
  {
    var low := j.Floor;
    if low < k.Floor {
      AtSeparates(v, j, low + 1);
      AtSeparates(v, k, low + 1);
    } else if low < |v| - 1 {
      ScaleIsMonotone(j - low as real, k - low as real, v[low + 1] - v[low]);
    }
  }

  lemma IndexIsMonotone(n: nat, p: real, q: real)
    requires n > 0 && 0.0 <= p <= q <= 100.0
    ensures Index(n, p) <= Index(n, q)
  {
    ScaleIsMonotone(p / 100.0, q / 100.0, (n - 1) as real);
  }

  /** A higher percentile is not lower. */
  lemma PercentilesAreOrdered(xs: seq<real>, p: real, q: real)
    requires |xs| > 0 && 0.0 <= p <= q <= 100.0
    ensures Percentile(xs, p) <= Percentile(xs, q)
  {
    SortSorts(xs);
    IndexIsMonotone(|xs|, p, q);
    AtIsMonotone(Sort(xs), Index(|xs|, p), Index(|xs|, q));
  }

  /** Of values in order, those before the place of a percentage are not above x, those from there on not below it. */
  predicate Separates(sorted: seq<real>, q: real, x: real, i: nat) {
    i < |sorted| ==>
      && (100.0 * i as real <= q * (|sorted| - 1) as real ==> sorted[i] <= x)
      && (100.0 * i as real >= q * (|sorted| - 1) as real ==> sorted[i] >= x)
  }

  lemma PercentileSeparates(xs: seq<real>, q: real, i: nat)
    requires |xs| > 0 && 0.0 <= q <= 100.0
    ensures Separates(Sort(xs), q, Percentile(xs, q), i)
  {
    var v, k := Sort(xs), Index(|xs|, q);
    SortSorts(xs);
    if i < |v| {
      assert 100.0 * k == q * (|v| - 1) as real;
      AtSeparates(v, k, i);
    }
  }

  function Max(xs: seq<real>): (m: real)
    requires |xs| > 0
    ensures m in xs && forall x :: x in xs ==> x <= m
  {
    if |xs| == 1 then xs[0]
    else
      var rest := Max(xs[1..]);
      assert xs == [xs[0]] + xs[1..];
      if xs[0] >= rest then xs[0] else rest
  }

  lemma LargestIsLast(xs: seq<real>)
    requires |xs| > 0
    ensures Max(xs) == Sort(xs)[|xs| - 1]
  {
    var v := Sort(xs);
    SortSorts(xs);
    S.SortMembers(xs, Value(), Max(xs));
    S.SortMembers(xs, Value(), v[|v| - 1]);
    assert v[|v| - 1] in v;
  }

  /** Percentiles lie between any bounds of the values. */
  lemma PercentileWithin(xs: seq<real>, q: real, low: real, high: real)
    requires |xs| > 0 && 0.0 <= q <= 100.0 && forall x :: x in xs ==> low <= x <= high
    ensures low <= Percentile(xs, q) <= high
  {
    var v, k := Sort(xs), Index(|xs|, q);
    SortSorts(xs);
    forall x | x in v ensures x in xs {
      S.SortMembers(xs, Value(), x);
    }
    AtSeparates(v, k, 0);
    AtSeparates(v, k, |v| - 1);
    assert v[0] in v && v[|v| - 1] in v;
  }

  // ---------- How many values a percentile range holds ----------

  function Within(low: real, high: real): real -> bool { (x: real) => low <= x <= high }

  function CountIn(xs: seq<real>, low: real, high: real): nat { S.Count(xs, Within(low, high)) }

  /** A tenth of n - 1, rounded up. */
  function Tenth(n: nat): nat { (n + 8) / 10 }

  /** At least n - 2 ceil((n - 1) / 10) of n values lie between their 10th and 90th percentiles. */
  lemma TenToNinetyHoldsMost(xs: seq<real>)
    requires |xs| > 0
    ensures CountIn(xs, Percentile(xs, 10.0), Percentile(xs, 90.0)) >= |xs| - 2 * Tenth(|xs|)
    ensures Percentile(xs, 10.0) <= Percentile(xs, 90.0)
  {
    var n, v := |xs|, Sort(xs);
    var low, high := Percentile(xs, 10.0), Percentile(xs, 90.0);
    SortSorts(xs);
    S.SortCounts(xs, Value(), Within(low, high));
    PercentilesAreOrdered(xs, 10.0, 90.0);
    if n >= 2 * Tenth(n) {
      forall i | Tenth(n) <= i < n - Tenth(n) ensures low <= v[i] <= high {
        assert 10 * i >= n - 1 && 10 * i <= 9 * (n - 1);
        assert i as real >= Index(n, 10.0) && i as real <= Index(n, 90.0);
        AtSeparates(v, Index(n, 10.0), i);
        AtSeparates(v, Index(n, 90.0), i);
      }
      S.CountFromIndexes(v, Tenth(n), n - Tenth(n), Within(low, high));
    }
  }
}
