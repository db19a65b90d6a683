/**
 The run thread of the cron scheduler: turn after turn it loads the jobs and follows their
 generator. What it starts, and that it gets on.
 */
module CronThread {
  import opened Wrappers
  import opened FlatMaps
  import opened CronScheduler
  import opened CronRuns

  /** What a load brings and, round by round, the clock and whether the wait for the batch ran out. */
  datatype Turn = Turn(jobs: Option<seq<Job>>, rounds: seq<(int, bool)>)

  function LoadOf(turn: Turn): Event {
    match turn.jobs case Some(jobs) => Load(jobs) case None => LoadFails
  }

  /** One round and, if it yields a batch whose wait runs out, the start of that batch. */
  function RoundEvents(first: Crons, s: State, round: (int, bool)): seq<Event> {
    if round.1 then [Yield(round.0), Start] else [Yield(round.0)]
  }

  /** Only a wait that is cut short leaves a batch behind. */
  function TurnEvents(first: Crons, s: State, rounds: seq<(int, bool)>): seq<Event>
    decreases |rounds|
  {
    if rounds == [] || s.heads == [] then []
    else
      var events := RoundEvents(first, s, rounds[0]);
      var t := Exec(first, s, events);
      events + if t.pending.Some? then [] else TurnEvents(first, t, rounds[1..])
  }

  /** A turn loads first and then follows its generator. */
  function TurnRun(first: Crons, s: State, turn: Turn): seq<Event> {
    [LoadOf(turn)] + TurnEvents(first, Next(first, s, LoadOf(turn)), turn.rounds)
  }

  /** The events of a whole run, turn by turn. */
  function RunEvents(first: Crons, s: State, turns: seq<Turn>): seq<Event>
    decreases |turns|
  {
    if turns == [] then []
    else TurnRun(first, s, turns[0]) + RunEvents(first, Exec(first, s, TurnRun(first, s, turns[0])), turns[1..])
  }

  lemma {:induction false} ExecAppend(first: Crons, s: State, a: seq<Event>, b: seq<Event>)
    ensures Exec(first, s, a + b) == Exec(first, Exec(first, s, a), b)
    decreases |a|
  {
    if a == [] {
      assert a + b == b;
    } else {
      assert (a + b)[0] == a[0] && (a + b)[1..] == a[1..] + b;
      ExecAppend(first, Next(first, s, a[0]), a[1..], b);
    }
  }

  lemma ExecTwo(first: Crons, s: State, a: Event, b: Event)
    ensures Exec(first, s, [a]) == Next(first, s, a)
    ensures Exec(first, s, [a, b]) == Next(first, Next(first, s, a), b)
  {
    assert [a][1..] == [] && [a, b][1..] == [b] && [b][1..] == [];
    var t := Next(first, s, a);
    assert Exec(first, s, [a]) == Exec(first, t, []) && Exec(first, s, [a, b]) == Exec(first, t, [b]);
    assert Exec(first, t, [b]) == Exec(first, Next(first, t, b), []);
  }

  // ---------- What a run starts, without its events ----------

  function Clock(rounds: seq<(int, bool)>): (nows: seq<int>)
    ensures |nows| == |rounds|
  {
    seq(|rounds|, i requires 0 <= i < |rounds| => rounds[i].0)
  }

  /** The batches that are started: those with jobs, up to the first whose wait is cut short. */
  function Waited(batches: seq<Batch>, rounds: seq<(int, bool)>): seq<Batch>
    requires |batches| <= |rounds|
  {
    if batches == [] then []
    else if batches[0].jobs == [] then Waited(batches[1..], rounds[1..])
    else if rounds[0].1 then [batches[0]] + Waited(batches[1..], rounds[1..])
    else []
  }

  lemma {:induction false} NoMoreBatchesThanRounds(first: Crons, heads: seq<Head>, nows: seq<int>)
    ensures |Rounds(first, heads, nows).1| <= |nows|
    decreases |nows|
  {
    if nows != [] && heads != [] {
      NoMoreBatchesThanRounds(first, Round(first, heads, nows[0]).0, nows[1..]);
    }
  }

  /** What the jobs of a load start in one turn. */
  function GeneratorStarts(first: Crons, heads: seq<Head>, rounds: seq<(int, bool)>): seq<Batch> {
    NoMoreBatchesThanRounds(first, heads, Clock(rounds));
    Waited(Rounds(first, heads, Clock(rounds)).1, rounds)
  }

  function TurnStarts(first: Crons, base: int, turn: Turn): seq<Batch> {
    match turn.jobs
    case None => []
    case Some(jobs) => GeneratorStarts(first, FlatMap(jobs, Heads(first, base)), turn.rounds)
  }

  /** One second past the last batch started. */
  function BaseAfter(base: int, started: seq<Batch>): int {
    if started == [] then base else started[|started| - 1].time + 1
  }

  /** What a run starts, turn by turn, each from the base time that the one before has left. */
  function RunStarts(first: Crons, base: int, turns: seq<Turn>): seq<Batch>
    decreases |turns|
  {
    if turns == [] then []
    else
      var started := TurnStarts(first, base, turns[0]);
      started + RunStarts(first, BaseAfter(base, started), turns[1..])
  }

  lemma BaseAfterAppend(base: int, a: seq<Batch>, b: seq<Batch>)
    ensures BaseAfter(base, a + b) == BaseAfter(BaseAfter(base, a), b)
  {
    if b == [] {
      assert a + b == a;
    } else {
      assert (a + b)[|a + b| - 1] == b[|b| - 1];
    }
  }

  /** What a run has started after it, and the base time it leaves. */
  predicate Leaves(s: State, t: State, started: seq<Batch>) {
    t.started == s.started + started && t.base == BaseAfter(s.base, started)
  }

  lemma LeavesInTurn(s: State, t: State, u: State, a: seq<Batch>, b: seq<Batch>)
    requires Leaves(s, t, a) && Leaves(t, u, b)
    ensures Leaves(s, u, a + b)
  {
    BaseAfterAppend(s.base, a, b);
    AppendAssoc(s.started, a, b);
  }

  /** The batch of a round, if any job starts. */
  function Filled(batch: Batch): seq<Batch> { if batch.jobs == [] then [] else [batch] }

  lemma RoundExec(first: Crons, s: State, round: (int, bool))
    requires s.heads != [] && s.pending.None?
    ensures var t := Exec(first, s, RoundEvents(first, s, round));
            var (after, batch) := Round(first, s.heads, round.0);
            && t.heads == after
            && if batch.jobs != [] && !round.1 then t.pending.Some? && Leaves(s, t, [])
               else t.pending.None? && Leaves(s, t, Filled(batch))
  {
    ExecTwo(first, s, Yield(round.0), Start);
    assert s.started + [] == s.started;
  }

  lemma RoundsFirst(first: Crons, heads: seq<Head>, rounds: seq<(int, bool)>)
    requires rounds != [] && heads != []
    ensures var (after, batch) := Round(first, heads, rounds[0].0);
            GeneratorStarts(first, heads, rounds) ==
            if batch.jobs != [] && !rounds[0].1 then [] else Filled(batch) + GeneratorStarts(first, after, rounds[1..])
  {
    var (after, batch) := Round(first, heads, rounds[0].0);
    assert Clock(rounds)[1..] == Clock(rounds[1..]) && Clock(rounds)[0] == rounds[0].0;
    var later := Rounds(first, after, Clock(rounds[1..])).1;
    NoMoreBatchesThanRounds(first, after, Clock(rounds[1..]));
    assert Rounds(first, heads, Clock(rounds)).1 == [batch] + later;
    assert ([batch] + later)[1..] == later;
    assert [] + GeneratorStarts(first, after, rounds[1..]) == GeneratorStarts(first, after, rounds[1..]);
  }

  lemma {:induction false} GeneratorExec(first: Crons, s: State, rounds: seq<(int, bool)>)
    requires s.pending.None?
    ensures Leaves(s, Exec(first, s, TurnEvents(first, s, rounds)), GeneratorStarts(first, s.heads, rounds))
    decreases |rounds|
  {
    if rounds == [] || s.heads == [] {
      assert s.started + [] == s.started;
    } else {
      var events := RoundEvents(first, s, rounds[0]);
      var t := Exec(first, s, events);
      var batch := Round(first, s.heads, rounds[0].0).1;
      RoundExec(first, s, rounds[0]);
      RoundsFirst(first, s.heads, rounds);
      if t.pending.Some? {
        assert events + [] == events;
      } else {
        var more := TurnEvents(first, t, rounds[1..]);
        GeneratorExec(first, t, rounds[1..]);
        ExecAppend(first, s, events, more);
        LeavesInTurn(s, t, Exec(first, t, more), Filled(batch), GeneratorStarts(first, t.heads, rounds[1..]));
      }
    }
  }

  lemma TurnExec(first: Crons, s: State, turn: Turn)
    ensures Leaves(s, Exec(first, s, TurnRun(first, s, turn)), TurnStarts(first, s.base, turn))
  {
    var loaded := Next(first, s, LoadOf(turn));
    GeneratorExec(first, loaded, turn.rounds);
    assert TurnRun(first, s, turn)[1..] == TurnEvents(first, loaded, turn.rounds);
    if turn.jobs.None? {
      assert TurnEvents(first, loaded, turn.rounds) == [];
      assert s.started + [] == s.started;
    }
  }

  lemma {:induction false} RunExec(first: Crons, s: State, turns: seq<Turn>)
    ensures Leaves(s, Exec(first, s, RunEvents(first, s, turns)), RunStarts(first, s.base, turns))
    decreases |turns|
  {
    if turns == [] {
      assert s.started + [] == s.started;
    } else {
      var events := TurnRun(first, s, turns[0]);
      var t := Exec(first, s, events);
      var more := RunEvents(first, t, turns[1..]);
      TurnExec(first, s, turns[0]);
      RunExec(first, t, turns[1..]);
      ExecAppend(first, s, events, more);
      LeavesInTurn(s, t, Exec(first, t, more), TurnStarts(first, s.base, turns[0]), RunStarts(first, t.base, turns[1..]));
    }
  }

  method FollowRound(scheduler: Scheduler, round: (int, bool))
    requires ValidCrons(scheduler.first) && scheduler.pending.None? && scheduler.jobListHead != []
    modifies scheduler
    ensures StateOf(scheduler) ==
            Exec(scheduler.first, old(StateOf(scheduler)), RoundEvents(scheduler.first, old(StateOf(scheduler)), round))
  {
    ExecTwo(scheduler.first, StateOf(scheduler), Yield(round.0), Start);
    scheduler.NextRound(round.0);
    if scheduler.pending.Some? && round.1 {
      scheduler.StartPending();
    }
  }

  /** The inner loop of the run thread: it ends with the generator or with a wait cut short. */
  method FollowGenerator(scheduler: Scheduler, rounds: seq<(int, bool)>)
    requires ValidCrons(scheduler.first) && scheduler.pending.None?
    modifies scheduler
    ensures StateOf(scheduler) ==
            Exec(scheduler.first, old(StateOf(scheduler)), TurnEvents(scheduler.first, old(StateOf(scheduler)), rounds))
  {
    ghost var s0, first := StateOf(scheduler), scheduler.first;
    ghost var done: seq<Event> := [];
    ghost var all := TurnEvents(first, s0, rounds);
    for i := 0 to |rounds|
      invariant scheduler.pending.None?
      invariant StateOf(scheduler) == Exec(first, s0, done)
      invariant all == done + TurnEvents(first, StateOf(scheduler), rounds[i..])
    {
      if scheduler.jobListHead == [] {
        break;
      }
      ghost var s := StateOf(scheduler);
      ghost var events := RoundEvents(first, s, rounds[i]);
      assert rounds[i..][0] == rounds[i] && rounds[i..][1..] == rounds[i + 1..];
      FollowRound(scheduler, rounds[i]);
      ExecAppend(first, s0, done, events);
      if scheduler.pending.Some? {
        assert events + [] == events;
        return;
      }
      AppendAssoc(done, events, TurnEvents(first, StateOf(scheduler), rounds[i + 1..]));
      done := done + events;
    }
    assert done + [] == done;
  }

  method FollowTurn(scheduler: Scheduler, turn: Turn)
    requires ValidCrons(scheduler.first)
    modifies scheduler
    ensures StateOf(scheduler) ==
            Exec(scheduler.first, old(StateOf(scheduler)), TurnRun(scheduler.first, old(StateOf(scheduler)), turn))
  {
    ghost var s := StateOf(scheduler);
    scheduler.LoadJobs(turn.jobs);
    ghost var t := StateOf(scheduler);
    assert t == Next(scheduler.first, s, LoadOf(turn));
    FollowGenerator(scheduler, turn.rounds);
    assert TurnRun(scheduler.first, s, turn)[1..] == TurnEvents(scheduler.first, t, turn.rounds);
  }

  /** The run thread: load, follow the generator, and again, for as long as it is not stopped. */
  method RunThread(scheduler: Scheduler, turns: seq<Turn>)
    requires ValidCrons(scheduler.first)
    modifies scheduler
    ensures StateOf(scheduler) ==
            Exec(scheduler.first, old(StateOf(scheduler)), RunEvents(scheduler.first, old(StateOf(scheduler)), turns))
    ensures var started := RunStarts(scheduler.first, old(scheduler.baseTime), turns);
            && scheduler.started == old(scheduler.started) + started
            && scheduler.baseTime == BaseAfter(old(scheduler.baseTime), started)
  {
    ghost var s0, first := StateOf(scheduler), scheduler.first;
    ghost var done: seq<Event> := [];
    ghost var all := RunEvents(first, s0, turns);
    for i := 0 to |turns|
      invariant StateOf(scheduler) == Exec(first, s0, done)
      invariant all == done + RunEvents(first, StateOf(scheduler), turns[i..])
    {
      ghost var s := StateOf(scheduler);
      assert turns[i..][0] == turns[i] && turns[i..][1..] == turns[i + 1..];
      ghost var events := TurnRun(first, s, turns[i]);
      FollowTurn(scheduler, turns[i]);
      ExecAppend(first, s0, done, events);
      AppendAssoc(done, events, RunEvents(first, StateOf(scheduler), turns[i + 1..]));
      done := done + events;
    }
    assert done + [] == done;
    RunExec(first, s0, turns);
  }

  lemma {:induction false} GeneratorsLoadNothing(first: Crons, s: State, rounds: seq<(int, bool)>)
    ensures forall e :: e in TurnEvents(first, s, rounds) ==> e.Yield? || e.Start?
    decreases |rounds|
  {
    if rounds != [] && s.heads != [] {
      GeneratorsLoadNothing(first, Exec(first, s, RoundEvents(first, s, rounds[0])), rounds[1..]);
    }
  }

  /** Every load of a run is the load of one of its turns, so what all turns list, all loads list. */
  lemma {:induction false} LoadsAreTurns(first: Crons, s: State, turns: seq<Turn>, e: Event)
    requires e in RunEvents(first, s, turns) && e.Load?
    ensures exists i :: 0 <= i < |turns| && turns[i].jobs == Some(e.jobs)
    decreases |turns|
  {
    if turns != [] {
      var events := TurnRun(first, s, turns[0]);
      if e in events {
        GeneratorsLoadNothing(first, Next(first, s, LoadOf(turns[0])), turns[0].rounds);
        assert e == LoadOf(turns[0]);
      } else {
        LoadsAreTurns(first, Exec(first, s, events), turns[1..], e);
        var i :| 0 <= i < |turns| - 1 && turns[1..][i].jobs == Some(e.jobs);
        assert turns[i + 1].jobs == Some(e.jobs);
      }
    }
  }

  /** What a run has started of an ALL job listed by every turn: exactly all its instants. */
  lemma RunMissesNothing(first: Crons, base: int, turns: seq<Turn>, j: Job)
    requires ValidCrons(first) && j.policy == All
    requires forall i :: 0 <= i < |turns| && turns[i].jobs.Some? ==> j in turns[i].jobs.value
    ensures var started := RunStarts(first, base, turns);
            forall t :: StartedAt(started, j, t) <==> base <= t < BaseAfter(base, started) && Instant(first, j, t)
  {
    var events := RunEvents(first, Initial(base), turns);
    RunExec(first, Initial(base), turns);
    assert [] + RunStarts(first, base, turns) == RunStarts(first, base, turns);
    forall i | 0 <= i < |events| && events[i].Load? ensures j in events[i].jobs {
      LoadsAreTurns(first, Initial(base), turns, events[i]);
    }
    AllJobsMissNothing(first, base, events, j);
  }

  /** The run thread itself: an ALL job listed by every turn misses no instant. */
  method RunKeepsAllJobs(first: Crons, base: int, turns: seq<Turn>, ghost j: Job) returns (scheduler: Scheduler)
    requires ValidCrons(first) && j.policy == All
    requires forall i :: 0 <= i < |turns| && turns[i].jobs.Some? ==> j in turns[i].jobs.value
    ensures scheduler.started == RunStarts(first, base, turns) && scheduler.baseTime == BaseAfter(base, scheduler.started)
    ensures forall t :: StartedAt(scheduler.started, j, t) <==> base <= t < scheduler.baseTime && Instant(first, j, t)
  {
    scheduler := new Scheduler(first, base);
    assert StateOf(scheduler) == Initial(base);
    RunThread(scheduler, turns);
    assert [] + RunStarts(first, base, turns) == RunStarts(first, base, turns);
    RunMissesNothing(first, base, turns, j);
  }
}
