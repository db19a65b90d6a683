/** Stable sorting by a key, and counting, shared by the merge of cron streams and the percentiles. */
module Sorting {

  function Insert<T>(x: T, sorted: seq<T>, key: T -> real): (r: seq<T>)
    ensures |r| == |sorted| + 1
  {
    if sorted == [] || key(x) <= key(sorted[0]) then [x] + sorted else [sorted[0]] + Insert(x, sorted[1..], key)
  }

  /** Elements with equal keys keep their order. */
  function Sort<T>(xs: seq<T>, key: T -> real): (r: seq<T>)
    ensures |r| == |xs|
  {
    if xs == [] then [] else Insert(xs[0], Sort(xs[1..], key), key)
  }

  predicate Sorted<T>(xs: seq<T>, key: T -> real) {
    forall i, j :: 0 <= i < j < |xs| ==> key(xs[i]) <= key(xs[j])
  }

  lemma TailSorted<T>(xs: seq<T>, key: T -> real)
    requires Sorted(xs, key) && xs != []
    ensures Sorted(xs[1..], key)
  {
    assert forall i :: 0 <= i < |xs| - 1 ==> xs[1..][i] == xs[i + 1];
  }

  lemma ConsSorted<T>(x: T, xs: seq<T>, key: T -> real)
    requires Sorted(xs, key) && (xs != [] ==> key(x) <= key(xs[0]))
    ensures Sorted([x] + xs, key)
  {
    var r := [x] + xs;
    assert forall i :: 0 <= i < |xs| ==> r[i + 1] == xs[i] && key(x) <= key(xs[i]);
  }

  lemma {:induction false} InsertSorts<T>(x: T, sorted: seq<T>, key: T -> real)
    requires Sorted(sorted, key)
    ensures Sorted(Insert(x, sorted, key), key)
    ensures Insert(x, sorted, key)[0] == if sorted == [] || key(x) <= key(sorted[0]) then x else sorted[0]
  {
    if sorted == [] || key(x) <= key(sorted[0]) {
      ConsSorted(x, sorted, key);
    } else {
      TailSorted(sorted, key);
      InsertSorts(x, sorted[1..], key);
      ConsSorted(sorted[0], Insert(x, sorted[1..], key), key);
    }
  }

  lemma {:induction false} SortSorts<T>(xs: seq<T>, key: T -> real)
    ensures Sorted(Sort(xs, key), key)
  {
    if xs != [] {
      SortSorts(xs[1..], key);
      InsertSorts(xs[0], Sort(xs[1..], key), key);
    }
  }

  lemma {:induction false} InsertMembers<T>(x: T, sorted: seq<T>, key: T -> real, y: T)
    ensures y in Insert(x, sorted, key) <==> y == x || y in sorted
  {
    if sorted != [] && key(x) > key(sorted[0]) {
      InsertMembers(x, sorted[1..], key, y);
      assert y in sorted <==> y == sorted[0] || y in sorted[1..];
    }
  }

  lemma {:induction false} SortMembers<T>(xs: seq<T>, key: T -> real, y: T)
    ensures y in Sort(xs, key) <==> y in xs
  {
    if xs != [] {
      SortMembers(xs[1..], key, y);
      InsertMembers(xs[0], Sort(xs[1..], key), key, y);
      assert y in xs <==> y == xs[0] || y in xs[1..];
    }
  }

  // ---------- Counting ----------

  function Count<T>(xs: seq<T>, p: T -> bool): (n: nat)
    ensures n <= |xs|
  {
    if xs == [] then 0 else (if p(xs[0]) then 1 else 0) + Count(xs[1..], p)
  }

  lemma {:induction false} CountAppend<T>(a: seq<T>, b: seq<T>, p: T -> bool)
    ensures Count(a + b, p) == Count(a, p) + Count(b, p)
  {
    if a == [] {
      assert a + b == b;
    } else {
      CountAppend(a[1..], b, p);
      assert (a + b)[1..] == a[1..] + b;
    }
  }

  /** One more turn of a loop that counts from the left. */
  lemma CountPrefix<T>(xs: seq<T>, i: nat, p: T -> bool)
    requires i < |xs|
    ensures Count(xs[..i + 1], p) == Count(xs[..i], p) + if p(xs[i]) then 1 else 0
  {
    CountAppend(xs[..i], [xs[i]], p);
    assert xs[..i + 1] == xs[..i] + [xs[i]];
    assert [xs[i]][1..] == [];
  }

  lemma {:induction false} InsertCounts<T>(x: T, sorted: seq<T>, key: T -> real, p: T -> bool)
    ensures Count(Insert(x, sorted, key), p) == Count(sorted, p) + if p(x) then 1 else 0
  {
    if sorted == [] || key(x) <= key(sorted[0]) {
      assert ([x] + sorted)[1..] == sorted;
    } else {
      InsertCounts(x, sorted[1..], key, p);
      var r := Insert(x, sorted[1..], key);
      assert ([sorted[0]] + r)[1..] == r;
    }
  }

  /** Sorting changes no count: it is a permutation. */
  lemma {:induction false} SortCounts<T>(xs: seq<T>, key: T -> real, p: T -> bool)
    ensures Count(Sort(xs, key), p) == Count(xs, p)
  {
    if xs != [] {
      SortCounts(xs[1..], key, p);
      InsertCounts(xs[0], Sort(xs[1..], key), key, p);
    }
  }

  lemma {:induction false} CountFromIndexes<T>(v: seq<T>, a: nat, b: nat, p: T -> bool)
    requires b <= |v| && forall i :: a <= i < b ==> p(v[i])
    ensures Count(v, p) >= b - a
  {
    if v != [] && a < b {
      if a == 0 {
        CountFromIndexes(v[1..], 0, b - 1, p);
      } else {
        CountFromIndexes(v[1..], a - 1, b - 1, p);
      }
    }
  }
}
