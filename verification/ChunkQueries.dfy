/** Joining queries into as few statements as a length limit allows (testgen/utils). */
module ChunkQueries {
  import opened Wrappers
  import opened GreedyBatching
  import FlatMaps

  function Join(sep: string, parts: seq<string>): string {
    if |parts| == 0 then ""
    else if |parts| == 1 then parts[0]
    else parts[0] + sep + Join(sep, parts[1..])
  }

  function JoinEach(sep: string, groups: seq<seq<string>>): (chunks: seq<string>)
    ensures |chunks| == |groups|
    ensures forall i :: 0 <= i < |groups| ==> chunks[i] == Join(sep, groups[i])
  {
    seq(|groups|, i requires 0 <= i < |groups| => Join(sep, groups[i]))
  }

  function Length(query: string): nat { |query| }

  /** Exhausting an empty iterator: the one input on which the chunking raises. */
  datatype ChunkError = StopIteration

  /** The length of a joined text is exactly the batch cost with the separator counted between parts. */
  lemma {:induction false} JoinLength(sep: string, parts: seq<string>)
    ensures |Join(sep, parts)| == Cost(parts, Length, |sep|)
  {
    if |parts| > 1 {
      JoinLength(sep, parts[1..]);
    }
  }

  lemma {:induction false} JoinAppend(sep: string, a: seq<string>, b: seq<string>)
    requires a != [] && b != []
    ensures Join(sep, a + b) == Join(sep, a) + sep + Join(sep, b)
  {
    if |a| == 1 {
      assert (a + b)[1..] == b;
    } else {
      JoinAppend(sep, a[1..], b);
      assert (a + b)[1..] == a[1..] + b;
      calc {
        Join(sep, a + b);
        a[0] + sep + (Join(sep, a[1..]) + sep + Join(sep, b));
        (a[0] + sep + Join(sep, a[1..])) + sep + Join(sep, b);
      }
    }
  }

  /** Joining the chunks gives back the text that joining all the queries gives. */
  lemma {:induction false} JoinOfJoins(sep: string, groups: seq<seq<string>>)
    requires forall i :: 0 <= i < |groups| ==> groups[i] != []
    ensures Join(sep, JoinEach(sep, groups)) == Join(sep, Flatten(groups))
  {
    if groups != [] {
      var tail := groups[1..];
      JoinOfJoins(sep, tail);
      assert JoinEach(sep, groups) == [Join(sep, groups[0])] + JoinEach(sep, tail);
      if tail == [] {
        assert Flatten(groups) == groups[0];
      } else {
        assert tail[0] == groups[1] && Flatten(tail) == tail[0] + Flatten(tail[1..]);
        JoinAppend(sep, groups[0], Flatten(tail));
      }
    }
  }

  /** Some grouping of the queries whose joined chunks each respect the limit or hold a single query. */
  ghost predicate ValidChunking(groups: seq<seq<string>>, queries: seq<string>, sep: string, limit: int) {
    && Flatten(groups) == queries
    && forall g :: g in groups ==> |g| == 1 || (|g| > 1 && |Join(sep, g)| <= limit)
  }

  lemma ChunkingIsBatching(groups: seq<seq<string>>, queries: seq<string>, sep: string, limit: int)
    ensures ValidChunking(groups, queries, sep, limit) <==> ValidBatching(groups, queries, Length, |sep|, limit)
  {
    forall g | g in groups
      ensures |Join(sep, g)| == Cost(g, Length, |sep|)
    {
      JoinLength(sep, g);
    }
  }

  /** When everything fits in one statement the greedy rule produces exactly that one. */
  lemma {:induction false} GreedySingleChunk(current: seq<string>, rest: seq<string>, sep: string, limit: int)
    requires current + rest != [] && |Join(sep, current + rest)| <= limit
    ensures GreedyFrom(current, rest, Length, |sep|, limit) == [current + rest]
    decreases |rest|
  {
    if rest == [] {
      assert current + rest == current;
    } else {
      assert current + [rest[0]] + rest[1..] == current + rest;
      assert [] + (current + [rest[0]]) + rest[1..] == current + rest;
      CostOfPart([], current + [rest[0]], rest[1..], Length, |sep|);
      JoinLength(sep, current + rest);
      GreedySingleChunk(current + [rest[0]], rest[1..], sep, limit);
    }
  }

  /** The chunks of a non-empty list of queries. */
  function Chunks(queries: seq<string>, sep: string, limit: int): seq<string> {
    JoinEach(sep, Greedy(queries, Length, |sep|, limit))
  }

  /**
   Main result: the chunks come from a valid chunking, joining them restores the full
   query text, and no valid chunking of the same queries has fewer chunks.
   */
  lemma ChunksRejoinAndAreFewest(queries: seq<string>, sep: string, limit: int)
    ensures exists groups :: ValidChunking(groups, queries, sep, limit) && Chunks(queries, sep, limit) == JoinEach(sep, groups)
    ensures Join(sep, Chunks(queries, sep, limit)) == Join(sep, queries)
    ensures forall groups :: ValidChunking(groups, queries, sep, limit) ==> |Chunks(queries, sep, limit)| <= |groups|
  {
    var best := Greedy(queries, Length, |sep|, limit);
    GreedyOptimal(queries, Length, |sep|, limit);
    ChunkingIsBatching(best, queries, sep, limit);
    forall i | 0 <= i < |best| ensures best[i] != [] {
      assert best[i] in best;
    }
    JoinOfJoins(sep, best);
    forall groups | ValidChunking(groups, queries, sep, limit)
      ensures |best| <= |groups|
    {
      ChunkingIsBatching(groups, queries, sep, limit);
    }
  }

  /** One turn of the loop follows the greedy rule. */
  lemma ChunkStep(current: seq<string>, rest: seq<string>, sep: string, limit: int)
    requires current != [] && rest != []
    ensures Join(sep, [Join(sep, current), rest[0]]) == Join(sep, current + [rest[0]])
    ensures GreedyFrom(current, rest, Length, |sep|, limit) ==
            if |Join(sep, current + [rest[0]])| <= limit
            then GreedyFrom(current + [rest[0]], rest[1..], Length, |sep|, limit)
            else [current] + GreedyFrom([rest[0]], rest[1..], Length, |sep|, limit)
  {
    assert [Join(sep, current), rest[0]][1..] == [rest[0]];
    JoinAppend(sep, current, [rest[0]]);
    JoinLength(sep, current + [rest[0]]);
  }

  lemma WholeQueryIsOneChunk(queries: seq<string>, sep: string, limit: int)
    requires queries != [] && |Join(sep, queries)| <= limit
    ensures Chunks(queries, sep, limit) == [Join(sep, queries)]
  {
    assert [] + queries == queries;
    GreedySingleChunk([], queries, sep, limit);
    assert [queries][1..] == [];
  }

  lemma JoinEachSnoc(sep: string, groups: seq<seq<string>>, group: seq<string>)
    ensures JoinEach(sep, groups + [group]) == JoinEach(sep, groups) + [Join(sep, group)]
  {
  }

  /** The loop over the second and later queries. */
  method ChunkByLength(queries: seq<string>, joinString: string, maxQueryLength: int) returns (chunkedQueries: seq<string>)
    requires queries != []
    ensures chunkedQueries == Chunks(queries, joinString, maxQueryLength)
  {
    chunkedQueries := [];
    var currentChunk := queries[0];
    ghost var done: seq<seq<string>> := [];
    ghost var current := [queries[0]];
    assert [] + [queries[0]] == [queries[0]];
    for i := 1 to |queries|
      invariant current != [] && currentChunk == Join(joinString, current)
      invariant chunkedQueries == JoinEach(joinString, done)
      invariant Greedy(queries, Length, |joinString|, maxQueryLength)
             == done + GreedyFrom(current, queries[i..], Length, |joinString|, maxQueryLength)
    {
      assert queries[i..][1..] == queries[i + 1..];
      ChunkStep(current, queries[i..], joinString, maxQueryLength);
      var tempChunk := Join(joinString, [currentChunk, queries[i]]);
      if |tempChunk| <= maxQueryLength {
        currentChunk := tempChunk;
        current := current + [queries[i]];
      } else {
        chunkedQueries := chunkedQueries + [currentChunk];
        JoinEachSnoc(joinString, done, current);
        FlatMaps.AppendAssoc(done, [current], GreedyFrom([queries[i]], queries[i + 1..], Length, |joinString|, maxQueryLength));
        done, current := done + [current], [queries[i]];
        currentChunk := queries[i];
      }
    }
    JoinEachSnoc(joinString, done, current);
    chunkedQueries := chunkedQueries + [currentChunk];
  }

  /** With no queries the full text is empty: it is returned as one chunk unless the limit is negative. */
  method Chunk(queries: seq<string>, joinString: string, maxQueryLength: int)
    returns (r: Result<seq<string>, ChunkError>)
    ensures queries != [] ==> r == Success(Chunks(queries, joinString, maxQueryLength))
    ensures queries == [] ==> r == if maxQueryLength >= 0 then Success([""]) else Failure(StopIteration)
  {
    var fullQuery := Join(joinString, queries);
    if |fullQuery| <= maxQueryLength {
      if queries != [] {
        WholeQueryIsOneChunk(queries, joinString, maxQueryLength);
      }
      return Success([fullQuery]);
    }
    if queries == [] {
      return Failure(StopIteration);
    }
    var chunkedQueries := ChunkByLength(queries, joinString, maxQueryLength);
    return Success(chunkedQueries);
  }
}
