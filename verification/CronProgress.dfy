/** The run thread gets on: batches whose waits run out are started, and every instant of an ALL job is reached. */
module CronProgress {
  import opened Wrappers
  import opened FlatMaps
  import opened CronScheduler
  import opened CronRuns
  import opened CronThread

  /** The batches in which some job starts. */
  function NonEmpty(batches: seq<Batch>): seq<Batch> {
    FlatMap(batches, (batch: Batch) => if batch.jobs == [] then [] else [batch])
  }

  /**
   Exactly the non-empty batches up to the first whose wait is cut short are started; that one
   and whatever would have followed it are not.
   */
  lemma {:induction false} StartedUpToTheCut(batches: seq<Batch>, rounds: seq<(int, bool)>) returns (n: nat)
    requires |batches| <= |rounds|
    ensures n <= |batches| && Waited(batches, rounds) == NonEmpty(batches[..n])
    ensures forall i :: 0 <= i < n && batches[i].jobs != [] ==> rounds[i].1
    ensures n < |batches| ==> batches[n].jobs != [] && !rounds[n].1
  {
    n := 0;
    if batches == [] || (batches[0].jobs != [] && !rounds[0].1) {
      assert batches[..0] == [];
    } else {
      var m := StartedUpToTheCut(batches[1..], rounds[1..]);
      n := m + 1;
      assert batches[..n][1..] == batches[1..][..m] && batches[..n][0] == batches[0];
      assert [] + NonEmpty(batches[1..][..m]) == NonEmpty(batches[1..][..m]);
      forall i | 0 <= i < n && batches[i].jobs != [] ensures rounds[i].1 {
        assert i > 0 ==> batches[1..][i - 1] == batches[i] && rounds[1..][i - 1] == rounds[i];
      }
    }
  }

  /** If every wait runs out, all non-empty batches are started, in order. */
  lemma AllWaitsRunOut(first: Crons, base: int, turn: Turn)
    requires turn.jobs.Some? && forall i :: 0 <= i < |turn.rounds| ==> turn.rounds[i].1
    ensures TurnStarts(first, base, turn) ==
            NonEmpty(Rounds(first, FlatMap(turn.jobs.value, Heads(first, base)), Clock(turn.rounds)).1)
  {
    var heads := FlatMap(turn.jobs.value, Heads(first, base));
    var batches := Rounds(first, heads, Clock(turn.rounds)).1;
    NoMoreBatchesThanRounds(first, heads, Clock(turn.rounds));
    var n := StartedUpToTheCut(batches, turn.rounds);
    assert batches[..|batches|] == batches;
  }

  /** A wait cut short in the first round that has a batch: nothing is started. */
  lemma FirstWaitCutShort(first: Crons, base: int, turn: Turn, k: nat)
    requires turn.jobs.Some?
    requires var batches := Rounds(first, FlatMap(turn.jobs.value, Heads(first, base)), Clock(turn.rounds)).1;
             k < |batches| && k < |turn.rounds| && batches[k].jobs != [] && !turn.rounds[k].1
             && forall i :: 0 <= i < k ==> batches[i].jobs == []
    ensures TurnStarts(first, base, turn) == []
  {
    var heads := FlatMap(turn.jobs.value, Heads(first, base));
    var batches := Rounds(first, heads, Clock(turn.rounds)).1;
    NoMoreBatchesThanRounds(first, heads, Clock(turn.rounds));
    var n := StartedUpToTheCut(batches, turn.rounds);
    EmptyBatches(batches[..n]);
  }

  lemma {:induction false} EmptyBatches(batches: seq<Batch>)
    requires forall i :: 0 <= i < |batches| ==> batches[i].jobs == []
    ensures NonEmpty(batches) == []
  {
    if batches != [] {
      EmptyBatches(batches[1..]);
    }
  }

  /** Batches at strictly increasing times, the i-th not before base + i. */
  predicate Later(batches: seq<Batch>, base: int) {
    && (forall i :: 0 <= i < |batches| ==> batches[i].time >= base + i)
    && forall i, k :: 0 <= i < k < |batches| ==> batches[i].time < batches[k].time
  }

  lemma LaterCons(batch: Batch, batches: seq<Batch>, base: int)
    requires batch.time >= base && Later(batches, batch.time + 1)
    ensures Later([batch] + batches, base)
  {
    var all := [batch] + batches;
    assert forall i :: 0 <= i < |batches| ==> all[i + 1] == batches[i];
    forall i | 0 <= i < |all| ensures all[i].time >= base + i {
      assert i > 0 ==> all[i] == batches[i - 1];
    }
    forall i, k | 0 <= i < k < |all| ensures all[i].time < all[k].time {
      assert all[k] == batches[k - 1] && (i > 0 ==> all[i] == batches[i - 1]);
    }
  }

  lemma HeadsStay(first: Crons, heads: seq<Head>, now: int)
    requires heads != []
    ensures Round(first, heads, now).0 != []
  {
    RoundTakesTheTies(first, heads, now);
    assert heads[0] in heads && Moved(first, heads[0], Round(first, heads, now).1.time, now) in Round(first, heads, now).0;
  }

  /** A generator with jobs yields a batch in every round, each later than the one before. */
  lemma {:induction false} EveryRoundIsLater(first: Crons, heads: seq<Head>, nows: seq<int>, base: int)
    requires ValidCrons(first) && heads != [] && HeadsOk(first, heads, base)
    ensures var (last, batches) := Rounds(first, heads, nows);
            |batches| == |nows| && HeadsOk(first, last, base + |nows|) && Later(batches, base)
    decreases |nows|
  {
    if nows != [] {
      var (after, batch) := Round(first, heads, nows[0]);
      RoundHeadsOk(first, heads, base, nows[0]);
      HeadsStay(first, heads, nows[0]);
      EveryRoundIsLater(first, after, nows[1..], batch.time + 1);
      LaterCons(batch, Rounds(first, after, nows[1..]).1, base);
    }
  }

  lemma {:induction false} NonEmptyKeepsStarts(batches: seq<Batch>, j: Job, t: int)
    ensures StartedAt(NonEmpty(batches), j, t) <==> StartedAt(batches, j, t)
  {
    if batches != [] {
      NonEmptyKeepsStarts(batches[1..], j, t);
      StartedAtCons(batches[0], batches[1..], j, t);
      StartedAtCons(batches[0], NonEmpty(batches[1..]), j, t);
      assert [batches[0]] + batches[1..] == batches;
      assert [] + NonEmpty(batches[1..]) == NonEmpty(batches[1..]);
    }
  }

  /**
   Progress: in a turn whose load succeeds and whose waits all run out, every instant of a loaded
   job is started within as many rounds as seconds pass until then, if the job is an ALL job
   or no round finds the instant overdue.
   */
  lemma TurnReachesInstant(first: Crons, base: int, turn: Turn, j: Job, t: int)
    requires ValidCrons(first) && turn.jobs.Some? && j in turn.jobs.value
    requires forall i :: 0 <= i < |turn.rounds| ==> turn.rounds[i].1
    requires base <= t < base + |turn.rounds| && Instant(first, j, t)
    requires j.policy == All || forall i :: 0 <= i < |turn.rounds| ==> turn.rounds[i].0 <= t
    ensures StartedAt(TurnStarts(first, base, turn), j, t)
  {
    var heads, nows := FlatMap(turn.jobs.value, Heads(first, base)), Clock(turn.rounds);
    var batches := Rounds(first, heads, nows).1;
    var h := Head(first(j, base), j);
    LoadedHeads(first, turn.jobs.value, base);
    FirstIsNextInstant(first, j, base);
    assert h in heads && OneHead(heads, h);
    var path := OnlyOverdueIsDropped(first, heads, nows, h);
    EveryRoundIsLater(first, heads, nows, base);
    assert nows[..|batches|] == nows;
    assert OneHead(Rounds(first, heads, nows).0, Head(path[|batches|], j));
    assert forall i :: 0 <= i < |nows| ==> nows[i] == turn.rounds[i].0;
    if !StartedAt(batches, j, t) {
      var i := UnstartedWasOverdue(first, heads, nows, h, path, t);
    }
    AllWaitsRunOut(first, base, turn);
    NonEmptyKeepsStarts(batches, j, t);
  }

  lemma {:induction false} RunStartsSnoc(first: Crons, base: int, turns: seq<Turn>, turn: Turn)
    ensures var before := RunStarts(first, base, turns);
            RunStarts(first, base, turns + [turn]) == before + TurnStarts(first, BaseAfter(base, before), turn)
    decreases |turns|
  {
    var more := turns + [turn];
    if turns == [] {
      assert more[0] == turn && more[1..] == [];
      assert TurnStarts(first, base, turn) + [] == [] + TurnStarts(first, base, turn);
    } else {
      var started := TurnStarts(first, base, turns[0]);
      var next := BaseAfter(base, started);
      var later := RunStarts(first, next, turns[1..]);
      assert more[0] == turns[0] && more[1..] == turns[1..] + [turn];
      RunStartsSnoc(first, next, turns[1..], turn);
      BaseAfterAppend(base, started, later);
      AppendAssoc(started, later, TurnStarts(first, BaseAfter(next, later), turn));
    }
  }

  lemma StartedInEither(a: seq<Batch>, b: seq<Batch>, j: Job, t: int)
    ensures StartedAt(a + b, j, t) <==> StartedAt(a, j, t) || StartedAt(b, j, t)
  {
    assert forall i :: 0 <= i < |a| ==> (a + b)[i] == a[i];
    assert forall i :: 0 <= i < |b| ==> (a + b)[|a| + i] == b[i];
  }

  /**
   Progress of a whole run: whatever went before, a turn in which n waits run out takes an ALL
   job listed by every load past all its instants up to n seconds beyond the base time it
   found, and starts every one of them that had not been started.
   */
  lemma RunReachesInstant(first: Crons, base: int, turns: seq<Turn>, turn: Turn, j: Job, t: int)
    requires ValidCrons(first) && j.policy == All
    requires forall i :: 0 <= i < |turns| && turns[i].jobs.Some? ==> j in turns[i].jobs.value
    requires turn.jobs.Some? && j in turn.jobs.value && forall i :: 0 <= i < |turn.rounds| ==> turn.rounds[i].1
    requires Instant(first, j, t) && base <= t < BaseAfter(base, RunStarts(first, base, turns)) + |turn.rounds|
    ensures StartedAt(RunStarts(first, base, turns + [turn]), j, t)
  {
    var before := RunStarts(first, base, turns);
    var now := BaseAfter(base, before);
    RunStartsSnoc(first, base, turns, turn);
    if t < now {
      RunMissesNothing(first, base, turns, j);
      assert StartedAt(before, j, t);
    } else {
      TurnReachesInstant(first, now, turn, j, t);
    }
    StartedInEither(before, TurnStarts(first, now, turn), j, t);
  }
}
