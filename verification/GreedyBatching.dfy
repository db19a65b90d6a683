/**
 Packing a list into consecutive batches under a size limit. The same greedy rule is used
 by the grouping of aggregate tests and by the chunking of queries: keep adding to
 the current batch while its size stays within the limit, otherwise start a new batch.
 A single oversized item still gets a batch of its own.
 */
module GreedyBatching {
  import FlatMaps

  function Flatten<T>(groups: seq<seq<T>>): seq<T> {
    if groups == [] then [] else groups[0] + Flatten(groups[1..])
  }

  /** Size of a batch: the sizes of its items plus one separator between neighbours. */
  function Cost<T>(items: seq<T>, size: T -> nat, sep: nat): nat {
    if |items| == 0 then 0
    else if |items| == 1 then size(items[0])
    else size(items[0]) + sep + Cost(items[1..], size, sep)
  }

  ghost predicate Fits<T>(group: seq<T>, size: T -> nat, sep: nat, limit: int) {
    |group| == 1 || (|group| > 1 && Cost(group, size, sep) <= limit)
  }

  /** A partition of the items into consecutive, non-empty batches that fit or are singletons. */
  ghost predicate ValidBatching<T(!new)>(groups: seq<seq<T>>, items: seq<T>, size: T -> nat, sep: nat, limit: int) {
    Flatten(groups) == items && forall g :: g in groups ==> Fits(g, size, sep, limit)
  }

  /** The greedy rule with the batch under construction and the items still to place. */
  function GreedyFrom<T>(current: seq<T>, rest: seq<T>, size: T -> nat, sep: nat, limit: int): seq<seq<T>>
    decreases |rest|
  {
    if rest == [] then
      if current == [] then [] else [current]
    else if current != [] && Cost(current + [rest[0]], size, sep) > limit then
      [current] + GreedyFrom([rest[0]], rest[1..], size, sep, limit)
    else
      GreedyFrom(current + [rest[0]], rest[1..], size, sep, limit)
  }

  function Greedy<T>(items: seq<T>, size: T -> nat, sep: nat, limit: int): seq<seq<T>> {
    GreedyFrom([], items, size, sep, limit)
  }

  lemma {:induction false} CostAppend<T>(items: seq<T>, x: T, size: T -> nat, sep: nat)
    requires items != []
    ensures Cost(items + [x], size, sep) == Cost(items, size, sep) + sep + size(x)
  {
    if |items| == 1 {
      assert (items + [x])[1..] == [x];
    } else {
      CostAppend(items[1..], x, size, sep);
      assert (items + [x])[1..] == items[1..] + [x];
    }
  }

  /** A contiguous part of a batch never costs more than the batch. */
  lemma {:induction false} CostOfPart<T>(a: seq<T>, b: seq<T>, c: seq<T>, size: T -> nat, sep: nat)
    ensures Cost(b, size, sep) <= Cost(a + b + c, size, sep)
    decreases |a| + |c|
  {
    if a != [] {
      CostOfPart(a[1..], b, c, size, sep);
      assert (a + b + c)[1..] == a[1..] + b + c;
    } else if c != [] {
      var d := c[..|c| - 1];
      CostOfPart(a, b, d, size, sep);
      assert a + b + c == (a + b + d) + [c[|c| - 1]];
      if a + b + d != [] {
        CostAppend(a + b + d, c[|c| - 1], size, sep);
      }
    } else {
      assert a + b + c == b;
    }
  }

  /** The greedy rule loses nothing, keeps the order and produces only admissible batches. */
  lemma {:induction false} GreedyFromValid<T(!new)>(current: seq<T>, rest: seq<T>, size: T -> nat, sep: nat, limit: int)
    requires current == [] || Fits(current, size, sep, limit)
    ensures ValidBatching(GreedyFrom(current, rest, size, sep, limit), current + rest, size, sep, limit)
    decreases |rest|
  {
    if rest == [] {
      assert current + rest == current;
      if current != [] {
        assert Flatten([current]) == current + Flatten<T>([]);
      }
    } else if current != [] && Cost(current + [rest[0]], size, sep) > limit {
      GreedyFromValid([rest[0]], rest[1..], size, sep, limit);
      assert [rest[0]] + rest[1..] == rest;
    } else {
      GreedyFromValid(current + [rest[0]], rest[1..], size, sep, limit);
      assert current + [rest[0]] + rest[1..] == current + rest;
    }
  }

  /**
   The greedy rule stays ahead of every admissible batching: whatever prefix d the other
   batching has already spent, the greedy rule needs no more batches for what is left.
   */
  lemma {:induction false} GreedyStaysAhead<T(!new)>(
    groups: seq<seq<T>>, d: seq<T>, current: seq<T>, rest: seq<T>, size: T -> nat, sep: nat, limit: int)
    requires current != []
    requires ValidBatching(groups, d + current + rest, size, sep, limit)
    ensures |GreedyFrom(current, rest, size, sep, limit)| <= |groups|
    decreases |groups| + |rest|
  {
    assert |d + current + rest| > 0;
    var p, tail := groups[0], groups[1..];
    assert p in groups;
    var whole := d + current + rest;
    assert whole == p + Flatten(tail);
    if |d| >= |p| {
      assert Flatten(tail) == whole[|p|..] == d[|p|..] + current + rest;
      GreedyStaysAhead(tail, d[|p|..], current, rest, size, sep, limit);
    } else if rest != [] {
      var x := rest[0];
      if Cost(current + [x], size, sep) <= limit {
        assert d + (current + [x]) + rest[1..] == whole;
        GreedyStaysAhead(groups, d, current + [x], rest[1..], size, sep, limit);
      } else {
        var grown := d + current + [x];
        if |grown| <= |p| {
          // Both the current batch and x lie in one batch of the other partition, so they fit.
          assert whole == grown + rest[1..];
          assert p == whole[..|p|];
          var after := p[|grown|..];
          assert p == d + (current + [x]) + after;
          CostOfPart(d, current + [x], after, size, sep);
          assert false;
        }
        var spent := (d + current)[|p|..];
        assert Flatten(tail) == whole[|p|..];
        assert whole == d + current + [x] + rest[1..];
        assert whole[|p|..] == spent + [x] + rest[1..];
        GreedyStaysAhead(tail, spent, [x], rest[1..], size, sep, limit);
      }
    }
  }

  /** Main result: the greedy batching is admissible and no admissible batching has fewer batches. */
  lemma GreedyOptimal<T(!new)>(items: seq<T>, size: T -> nat, sep: nat, limit: int)
    ensures ValidBatching(Greedy(items, size, sep, limit), items, size, sep, limit)
    ensures forall groups :: ValidBatching(groups, items, size, sep, limit) ==>
              |Greedy(items, size, sep, limit)| <= |groups|
  {
    GreedyFromValid([], items, size, sep, limit);
    assert [] + items == items;
    forall groups | ValidBatching(groups, items, size, sep, limit)
      ensures |Greedy(items, size, sep, limit)| <= |groups|
    {
      if items != [] {
        assert [] + [items[0]] + items[1..] == items;
        assert [] + [items[0]] == [items[0]];
        GreedyStaysAhead(groups, [], [items[0]], items[1..], size, sep, limit);
      }
    }
  }

  lemma {:induction false} FlattenAppend<T>(a: seq<seq<T>>, b: seq<seq<T>>)
    ensures Flatten(a + b) == Flatten(a) + Flatten(b)
  {
    if a == [] {
      assert a + b == b;
    } else {
      var ab := a + b;
      assert ab[0] == a[0] && ab[1..] == a[1..] + b;
      FlattenAppend(a[1..], b);
      assert Flatten(ab) == a[0] + Flatten(ab[1..]) && Flatten(a) == a[0] + Flatten(a[1..]);
      FlatMaps.AppendAssoc(a[0], Flatten(a[1..]), Flatten(b));
    }
  }
}
