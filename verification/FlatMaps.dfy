/** Concatenated images of sequences, and the fact that reordering the input only reorders the output. */
module FlatMaps {

  /** Concatenation is associative; stated as a lemma because it is needed by name. */
  lemma AppendAssoc<T>(a: seq<T>, b: seq<T>, c: seq<T>)
    ensures (a + b) + c == a + (b + c)
  {
  }

  function FlatMap<A, B>(xs: seq<A>, f: A -> seq<B>): seq<B> {
    if xs == [] then [] else f(xs[0]) + FlatMap(xs[1..], f)
  }

  function Range(n: nat): (r: seq<nat>)
    ensures |r| == n && forall i :: 0 <= i < n ==> r[i] == i
  {
    seq(n, i => i)
  }

  /** An order in which n numbered tasks may complete. */
  ghost predicate IsCompletionOrder(order: seq<nat>, n: nat) {
    multiset(order) == multiset(Range(n))
  }

  lemma CompletionOrderInRange(order: seq<nat>, n: nat, k: nat)
    requires IsCompletionOrder(order, n) && k < |order|
    ensures order[k] < n && |order| == n
  {
    assert order[k] in multiset(order);
    assert |multiset(order)| == |order| && |multiset(Range(n))| == n;
  }

  lemma CompletionOrderBounds(order: seq<nat>, n: nat)
    requires IsCompletionOrder(order, n)
    ensures |order| == n && forall k :: 0 <= k < |order| ==> order[k] < n
  {
    assert |multiset(order)| == |order| && |multiset(Range(n))| == n;
    forall k | 0 <= k < |order| ensures order[k] < n {
      CompletionOrderInRange(order, n, k);
    }
  }

  lemma {:induction false} FlatMapAppend<A, B>(a: seq<A>, b: seq<A>, f: A -> seq<B>)
    ensures FlatMap(a + b, f) == FlatMap(a, f) + FlatMap(b, f)
  {
    if a == [] {
      assert a + b == b;
    } else {
      var ab := a + b;
      assert ab[0] == a[0] && ab[1..] == a[1..] + b;
      FlatMapAppend(a[1..], b, f);
      AppendAssoc(f(a[0]), FlatMap(a[1..], f), FlatMap(b, f));
    }
  }

  /** One more turn of a loop that collects the outputs from the left. */
  lemma FlatMapPrefix<A, B>(xs: seq<A>, k: nat, f: A -> seq<B>)
    requires k < |xs|
    ensures FlatMap(xs[..k + 1], f) == FlatMap(xs[..k], f) + f(xs[k])
  {
    FlatMapAppend(xs[..k], [xs[k]], f);
    assert xs[..k + 1] == xs[..k] + [xs[k]];
    FlatMapOne(xs[k], f);
  }

  lemma FlatMapOne<A, B>(x: A, f: A -> seq<B>)
    ensures FlatMap([x], f) == f(x)
  {
    assert [x][1..] == [] && f(x) + [] == f(x);
  }

  lemma FlatMapPair<A, B>(x: A, y: A, f: A -> seq<B>)
    ensures FlatMap([x, y], f) == f(x) + f(y)
  {
    assert [x, y][1..] == [y];
    FlatMapOne(y, f);
  }

  lemma {:induction false} FlatMapMembers<A, B>(xs: seq<A>, f: A -> seq<B>, y: B)
    ensures y in FlatMap(xs, f) <==> exists x :: x in xs && y in f(x)
  {
    if xs != [] {
      FlatMapMembers(xs[1..], f, y);
      assert forall x :: x in xs <==> x == xs[0] || x in xs[1..];
    }
  }

  lemma {:induction false} FlatMapSame<A, B>(xs: seq<A>, f: A -> seq<B>, g: A -> seq<B>)
    requires forall i :: 0 <= i < |xs| ==> f(xs[i]) == g(xs[i])
    ensures FlatMap(xs, f) == FlatMap(xs, g)
  {
    if xs != [] {
      FlatMapSame(xs[1..], f, g);
    }
  }

  /** One input can be moved to the front. */
  lemma FlatMapMoved<A, B>(before: seq<A>, x: A, after: seq<A>, f: A -> seq<B>)
    ensures multiset(FlatMap(before + ([x] + after), f)) == multiset(f(x)) + multiset(FlatMap(before + after, f))
  {
    FlatMapAppend(before, after, f);
    FlatMapAppend(before, [x] + after, f);
    FlatMapAppend([x], after, f);
    FlatMapOne(x, f);
  }

  lemma MultisetWithout<A>(before: seq<A>, x: A, after: seq<A>)
    ensures multiset(before + ([x] + after)) - multiset{x} == multiset(before + after)
  {
  }

  lemma SplitAt<A>(s: seq<A>, k: nat)
    requires k < |s|
    ensures s == s[..k] + ([s[k]] + s[k + 1..])
  {
  }

  /** The first element of one ordering found in the other. */
  lemma FindFirst<A>(a: seq<A>, b: seq<A>) returns (before: seq<A>, after: seq<A>)
    requires a != [] && multiset(a) == multiset(b)
    ensures b == before + ([a[0]] + after)
    ensures multiset(a[1..]) == multiset(before + after)
  {
    assert a[0] in multiset(b);
    var k :| 0 <= k < |b| && b[k] == a[0];
    before, after := b[..k], b[k + 1..];
    SplitAt(b, k);
    SplitAt(a, 0);
    MultisetWithout(before, a[0], after);
    MultisetWithout([], a[0], a[1..]);
    assert [] + ([a[0]] + a[1..]) == a && [] + a[1..] == a[1..];
  }

  /** Reordering the input reorders the output. */
  lemma {:induction false} FlatMapReordered<A, B>(a: seq<A>, b: seq<A>, f: A -> seq<B>)
    requires multiset(a) == multiset(b)
    ensures multiset(FlatMap(a, f)) == multiset(FlatMap(b, f))
  {
    if a == [] {
      assert |multiset(a)| == 0 == |multiset(b)| == |b|;
    } else {
      var before, after := FindFirst(a, b);
      FlatMapReordered(a[1..], before + after, f);
      FlatMapMoved(before, a[0], after, f);
    }
  }

  /** Two outputs per input, produced in two passes, are together the outputs of one pass. */
  lemma {:induction false} FlatMapTwoPasses<A, B>(xs: seq<A>, f: A -> seq<B>, g: A -> seq<B>, both: A -> seq<B>)
    requires forall i :: 0 <= i < |xs| ==> both(xs[i]) == f(xs[i]) + g(xs[i])
    ensures multiset(FlatMap(xs, f)) + multiset(FlatMap(xs, g)) == multiset(FlatMap(xs, both))
  {
    if xs != [] {
      FlatMapTwoPasses(xs[1..], f, g, both);
    }
  }

  lemma {:induction false} FlatMapCompose<A, B, C>(xs: seq<A>, f: A -> seq<B>, g: B -> seq<C>, h: A -> seq<C>)
    requires forall i :: 0 <= i < |xs| ==> h(xs[i]) == FlatMap(f(xs[i]), g)
    ensures FlatMap(FlatMap(xs, f), g) == FlatMap(xs, h)
  {
    if xs != [] {
      FlatMapCompose(xs[1..], f, g, h);
      FlatMapAppend(f(xs[0]), FlatMap(xs[1..], f), g);
    }
  }

  /** The outputs of a list, asked for by index. */
  function ByIndex<A, B>(xs: seq<A>, f: A -> seq<B>): nat -> seq<B> {
    (i: nat) => if i < |xs| then f(xs[i]) else []
  }

  /** Going through the indexes of a list is going through the list. */
  lemma {:induction false} FlatMapOfIndexes<A, B>(xs: seq<A>, f: A -> seq<B>, from: nat)
    requires from <= |xs|
    ensures FlatMap(Range(|xs|)[from..], ByIndex(xs, f)) == FlatMap(xs[from..], f)
    decreases |xs| - from
  {
    if from < |xs| {
      FlatMapOfIndexes(xs, f, from + 1);
      assert Range(|xs|)[from..][1..] == Range(|xs|)[from + 1..] && xs[from..][1..] == xs[from + 1..];
    }
  }

  /** Whatever the completion order, the outputs are those of the list itself. */
  lemma CompletionOrderIrrelevant<A, B>(xs: seq<A>, order: seq<nat>, f: A -> seq<B>)
    requires IsCompletionOrder(order, |xs|)
    ensures multiset(FlatMap(order, ByIndex(xs, f))) == multiset(FlatMap(xs, f))
  {
    FlatMapReordered(order, Range(|xs|), ByIndex(xs, f));
    FlatMapOfIndexes(xs, f, 0);
    assert Range(|xs|)[0..] == Range(|xs|) && xs[0..] == xs;
  }
}
