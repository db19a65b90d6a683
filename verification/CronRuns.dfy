/** Whole runs of the cron scheduler: loads, failed loads, rounds and starts in any order. */
module CronRuns {
  import opened Wrappers
  import opened FlatMaps
  import opened CronScheduler
  import S = Sorting

  /** A wait that is cut short is followed by a load, which discards the pending batch. */
  datatype Event = Load(jobs: seq<Job>) | LoadFails | Yield(now: int) | Start

  datatype State = State(base: int, heads: seq<Head>, pending: Option<Batch>, started: seq<Batch>)

  /** An event that is not possible in a state changes nothing. */
  function Next(first: Crons, s: State, e: Event): State {
    match e
    case Load(jobs) => s.(heads := FlatMap(jobs, Heads(first, s.base)), pending := None)
    case LoadFails => s.(heads := [], pending := None)
    case Yield(now) =>
      if s.heads == [] || s.pending.Some? then s
      else
        var (after, batch) := Round(first, s.heads, now);
        s.(heads := after, pending := if batch.jobs != [] then Some(batch) else None)
    case Start =>
      if s.pending.None? then s
      else State(s.pending.value.time + 1, s.heads, None, s.started + [s.pending.value])
  }

  function Exec(first: Crons, s: State, events: seq<Event>): State
    decreases |events|
  {
    if events == [] then s else Exec(first, Next(first, s, events[0]), events[1..])
  }

  function Initial(base: int): State { State(base, [], None, []) }

  function StateOf(scheduler: Scheduler): State
    reads scheduler
  {
    State(scheduler.baseTime, scheduler.jobListHead, scheduler.pending, scheduler.started)
  }

  // ---------- Safety of every run ----------

  predicate HeadsOk(first: Crons, heads: seq<Head>, from: int) {
    forall h :: h in heads ==> h.time >= from && Instant(first, h.job, h.time)
  }

  predicate BatchOk(first: Crons, batch: Batch) {
    && batch.jobs != [] && (forall j :: j in batch.jobs ==> Instant(first, j, batch.time))
  }

  predicate Inv(first: Crons, s: State) {
    && HeadsOk(first, s.heads, s.base)
    && (s.pending.Some? ==>
          BatchOk(first, s.pending.value) && s.pending.value.time >= s.base && HeadsOk(first, s.heads, s.pending.value.time + 1))
    && (forall i :: 0 <= i < |s.started| ==> BatchOk(first, s.started[i]) && s.started[i].time < s.base)
    && (forall i, k :: 0 <= i < k < |s.started| ==> s.started[i].time < s.started[k].time)
  }

  lemma {:induction false} LoadedHeads(first: Crons, jobs: seq<Job>, base: int)
    requires ValidCrons(first)
    ensures HeadsOk(first, FlatMap(jobs, Heads(first, base)), base)
    ensures forall h :: h in FlatMap(jobs, Heads(first, base)) <==> h.job in jobs && h.time == first(h.job, base)
  {
    if jobs != [] {
      LoadedHeads(first, jobs[1..], base);
      FirstIsNextInstant(first, jobs[0], base);
      assert jobs == [jobs[0]] + jobs[1..];
    }
  }

  lemma RoundHeadsOk(first: Crons, heads: seq<Head>, from: int, now: int)
    requires ValidCrons(first) && heads != [] && HeadsOk(first, heads, from)
    ensures var (after, batch) := Round(first, heads, now);
            && HeadsOk(first, after, batch.time + 1) && batch.time >= from
            && forall j :: j in batch.jobs ==> Instant(first, j, batch.time)
  {
    var (after, batch) := Round(first, heads, now);
    var t := batch.time;
    RoundTakesTheTies(first, heads, now);
    forall x | x in after ensures x.time >= t + 1 && Instant(first, x.job, x.time) {
      var h :| h in heads && x == Moved(first, h, t, now);
      DropsOnlyOverdue(first, h.job, t, now, 0);
    }
  }

  lemma RoundKeepsInv(first: Crons, s: State, now: int)
    requires ValidCrons(first) && Inv(first, s) && s.heads != [] && s.pending.None?
    ensures Inv(first, Next(first, s, Yield(now)))
    ensures var (after, batch) := Round(first, s.heads, now);
            HeadsOk(first, after, batch.time + 1) && batch.time >= s.base
  {
    var (after, batch) := Round(first, s.heads, now);
    RoundHeadsOk(first, s.heads, s.base, now);
  }

  lemma NextKeepsInv(first: Crons, s: State, e: Event)
    requires ValidCrons(first) && Inv(first, s)
    ensures Inv(first, Next(first, s, e)) && Next(first, s, e).base >= s.base && s.started <= Next(first, s, e).started
  {
    match e
    case Load(jobs) => LoadedHeads(first, jobs, s.base);
    case LoadFails =>
    case Yield(now) => if s.heads != [] && s.pending.None? { RoundKeepsInv(first, s, now); }
    case Start =>
  }

  lemma {:induction false} ExecKeepsInv(first: Crons, s: State, events: seq<Event>)
    requires ValidCrons(first) && Inv(first, s)
    ensures Inv(first, Exec(first, s, events)) && Exec(first, s, events).base >= s.base
    ensures s.started <= Exec(first, s, events).started
    decreases |events|
  {
    if events != [] {
      NextKeepsInv(first, s, events[0]);
      ExecKeepsInv(first, Next(first, s, events[0]), events[1..]);
    }
  }

  // ---------- No job twice at one instant ----------

  function Is(j: Job): Job -> bool { (job: Job) => job == j }

  function Of(j: Job): Head -> bool { (h: Head) => h.job == j }

  function Count(jobs: seq<Job>, j: Job): nat { S.Count(jobs, Is(j)) }

  function HeadCount(heads: seq<Head>, j: Job): nat { S.Count(heads, Of(j)) }

  lemma {:induction false} DueCounts(first: Crons, due: seq<Head>, now: int, j: Job)
    ensures HeadCount(FlatMap(due, Advance(first, now)), j) == HeadCount(due, j)
    ensures Count(FlatMap(due, Started(now)), j) <= HeadCount(due, j)
  {
    if due != [] {
      DueCounts(first, due[1..], now, j);
      S.CountAppend(Advance(first, now)(due[0]), FlatMap(due[1..], Advance(first, now)), Of(j));
      var rest := FlatMap(due[1..], Started(now));
      assert ([due[0].job] + rest)[1..] == rest && [] + rest == rest;
    }
  }

  lemma RoundCounts(first: Crons, heads: seq<Head>, now: int, j: Job)
    requires heads != []
    ensures var (after, batch) := Round(first, heads, now);
            HeadCount(after, j) == HeadCount(heads, j) && Count(batch.jobs, j) <= HeadCount(heads, j)
  {
    var sorted := SortHeads(heads);
    var n := DueCount(sorted, sorted[0].time);
    var due, rest := sorted[..n], sorted[n..];
    assert sorted == due + rest;
    S.SortCounts(heads, Time(), Of(j));
    S.CountAppend(due, rest, Of(j));
    DueCounts(first, due, now, j);
    S.CountAppend(rest, FlatMap(due, Advance(first, now)), Of(j));
    assert Round(first, heads, now).0 == rest + FlatMap(due, Advance(first, now));
  }

  lemma {:induction false} LoadCounts(first: Crons, jobs: seq<Job>, base: int, j: Job)
    ensures HeadCount(FlatMap(jobs, Heads(first, base)), j) == Count(jobs, j)
  {
    if jobs != [] {
      LoadCounts(first, jobs[1..], base, j);
    }
  }

  /** No load lists a job twice. */
  predicate LoadsDistinct(events: seq<Event>, j: Job) {
    forall i :: 0 <= i < |events| && events[i].Load? ==> Count(events[i].jobs, j) <= 1
  }

  predicate Single(s: State, j: Job) {
    && HeadCount(s.heads, j) <= 1 && (s.pending.Some? ==> Count(s.pending.value.jobs, j) <= 1)
    && forall i :: 0 <= i < |s.started| ==> Count(s.started[i].jobs, j) <= 1
  }

  lemma {:induction false} ExecKeepsSingle(first: Crons, s: State, events: seq<Event>, j: Job)
    requires Single(s, j) && LoadsDistinct(events, j)
    ensures Single(Exec(first, s, events), j)
    decreases |events|
  {
    if events != [] {
      var t := Next(first, s, events[0]);
      match events[0] {
        case Load(jobs) => LoadCounts(first, jobs, s.base, j);
        case Yield(now) => if s.heads != [] { RoundCounts(first, s.heads, now, j); }
        case _ =>
      }
      ExecKeepsSingle(first, t, events[1..], j);
    }
  }

  /** How often a job was started at an instant. */
  function StartCount(started: seq<Batch>, j: Job, t: int): nat {
    if started == [] then 0
    else (if started[0].time == t then Count(started[0].jobs, j) else 0) + StartCount(started[1..], j, t)
  }

  lemma {:induction false} StartedAtMostOnce(started: seq<Batch>, j: Job, t: int)
    requires forall i, k :: 0 <= i < k < |started| ==> started[i].time < started[k].time
    requires forall i :: 0 <= i < |started| ==> Count(started[i].jobs, j) <= 1
    ensures StartCount(started, j, t) <= 1
    ensures (forall i :: 0 <= i < |started| ==> started[i].time != t) ==> StartCount(started, j, t) == 0
  {
    if started != [] {
      assert started == [started[0]] + started[1..];
      StartedAtMostOnce(started[1..], j, t);
      assert started[0].time == t ==> forall i :: 0 <= i < |started[1..]| ==> started[1..][i].time != t;
    }
  }

  /**
   Whatever the reloads, started batches have strictly increasing times, each at an instant of
   every job in it and none before the initial base; no job starts twice at one instant.
   */
  lemma StartTimesIncrease(first: Crons, base: int, events: seq<Event>, j: Job, t: int)
    requires ValidCrons(first) && LoadsDistinct(events, j)
    ensures var started := Exec(first, Initial(base), events).started;
            && (forall i, k :: 0 <= i < k < |started| ==> started[i].time < started[k].time)
            && (forall i, job :: 0 <= i < |started| && job in started[i].jobs ==> Instant(first, job, started[i].time))
            && StartCount(started, j, t) <= 1
  {
    ExecKeepsInv(first, Initial(base), events);
    ExecKeepsSingle(first, Initial(base), events, j);
    var started := Exec(first, Initial(base), events).started;
    StartedAtMostOnce(started, j, t);
    assert forall i :: 0 <= i < |started| ==> BatchOk(first, started[i]);
  }

  // ---------- ALL loses nothing ----------

  predicate StartedAt(started: seq<Batch>, j: Job, t: int) {
    exists i :: 0 <= i < |started| && started[i].time == t && j in started[i].jobs
  }

  lemma StartedAtSnoc(started: seq<Batch>, batch: Batch, j: Job, t: int)
    ensures StartedAt(started + [batch], j, t) <==> StartedAt(started, j, t) || (batch.time == t && j in batch.jobs)
  {
    var more := started + [batch];
    assert more[|started|] == batch;
    assert forall i :: 0 <= i < |started| ==> more[i] == started[i];
  }

  /** Every successful load lists the job. */
  predicate Kept(events: seq<Event>, j: Job) {
    forall i :: 0 <= i < |events| && events[i].Load? ==> j in events[i].jobs
  }

  /**
   Started so far: exactly the instants from the initial base up to the current base. Its
   head is the next one; while a batch is pending the head is the one after that batch.
   */
  ghost predicate Complete(first: Crons, s: State, j: Job, from: int) {
    && from <= s.base
    && (forall t :: StartedAt(s.started, j, t) <==> from <= t < s.base && Instant(first, j, t))
    && (s.heads != [] ==> exists h :: h in s.heads && h.job == j)
    && (s.pending.Some? ==> s.heads != [])
    && match s.pending
       case None => forall h :: h in s.heads && h.job == j ==> h.time == first(j, s.base)
       case Some(batch) =>
         && (forall h :: h in s.heads && h.job == j ==> h.time == first(j, batch.time + 1))
         && (forall t :: s.base <= t <= batch.time && Instant(first, j, t) ==> t == batch.time && j in batch.jobs)
  }

  /** An ALL job waiting for its first instant from base on, before and after a round at t. */
  lemma RoundKeepsAllHead(first: Crons, heads: seq<Head>, base: int, j: Job, now: int)
    requires ValidCrons(first) && heads != [] && j.policy == All && HeadsOk(first, heads, base)
    requires (exists h :: h in heads && h.job == j) && forall h :: h in heads && h.job == j ==> h.time == first(j, base)
    ensures var (after, batch) := Round(first, heads, now);
            && (exists h :: h in after && h.job == j) && base <= batch.time <= first(j, base)
            && (forall h :: h in after && h.job == j ==> h.time == first(j, batch.time + 1))
            && (j in batch.jobs <==> batch.time == first(j, base))
  {
    var (after, batch) := Round(first, heads, now);
    var t := batch.time;
    RoundTakesTheTies(first, heads, now);
    var mine :| mine in heads && mine.job == j;
    assert Moved(first, mine, t, now) in after;
    FirstIsNextInstant(first, j, base);
    assert first(j, base) > t ==> first(j, t + 1) == first(j, base);
    forall h | h in after && h.job == j ensures h.time == first(j, t + 1) {
      var g :| g in heads && h == Moved(first, g, t, now);
    }
    assert t == first(j, base) ==> mine == Head(t, j);
  }

  lemma RoundKeepsComplete(first: Crons, s: State, j: Job, from: int, now: int)
    requires ValidCrons(first) && Inv(first, s) && Complete(first, s, j, from) && j.policy == All
    requires s.heads != [] && s.pending.None?
    ensures Complete(first, Next(first, s, Yield(now)), j, from)
  {
    var (after, batch) := Round(first, s.heads, now);
    RoundKeepsAllHead(first, s.heads, s.base, j, now);
    FirstIsNextInstant(first, j, s.base);
    if batch.jobs == [] {
      assert batch.time != first(j, s.base);
      assert first(j, batch.time + 1) == first(j, s.base);
    }
  }

  lemma StartKeepsComplete(first: Crons, s: State, j: Job, from: int)
    requires ValidCrons(first) && Inv(first, s) && Complete(first, s, j, from) && s.pending.Some?
    ensures Complete(first, Next(first, s, Start), j, from)
  {
    var batch := s.pending.value;
    var t := Next(first, s, Start);
    forall x ensures StartedAt(t.started, j, x) <==> from <= x < t.base && Instant(first, j, x) {
      StartedAtSnoc(s.started, batch, j, x);
    }
  }

  lemma {:induction false} ExecKeepsComplete(first: Crons, s: State, events: seq<Event>, j: Job, from: int)
    requires ValidCrons(first) && Inv(first, s) && Complete(first, s, j, from) && j.policy == All && Kept(events, j)
    ensures Complete(first, Exec(first, s, events), j, from)
    decreases |events|
  {
    if events != [] {
      NextKeepsInv(first, s, events[0]);
      match events[0] {
        case Load(jobs) =>
          LoadedHeads(first, jobs, s.base);
          assert Head(first(j, s.base), j) in FlatMap(jobs, Heads(first, s.base)) by { assert j in events[0].jobs; }
        case LoadFails =>
        case Yield(now) => if s.heads != [] && s.pending.None? { RoundKeepsComplete(first, s, j, from, now); }
        case Start => if s.pending.Some? { StartKeepsComplete(first, s, j, from); }
      }
      ExecKeepsComplete(first, Next(first, s, events[0]), events[1..], j, from);
    }
  }

  /**
   Over any run in which every successful load lists it, an ALL job is started at exactly
   all its instants from the initial base up to the current base, which is one second past
   the last started batch. Failed loads, reloads and abandoned waits lose nothing.
   */
  lemma AllJobsMissNothing(first: Crons, base: int, events: seq<Event>, j: Job)
    requires ValidCrons(first) && j.policy == All && Kept(events, j)
    ensures var s := Exec(first, Initial(base), events);
            && (forall t :: StartedAt(s.started, j, t) <==> base <= t < s.base && Instant(first, j, t))
            && s.base == if s.started == [] then base else s.started[|s.started| - 1].time + 1
  {
    ExecKeepsComplete(first, Initial(base), events, j, base);
    BaseFollowsLastBatch(first, Initial(base), events, base);
  }

  lemma {:induction false} BaseFollowsLastBatch(first: Crons, s: State, events: seq<Event>, base: int)
    requires s.base == if s.started == [] then base else s.started[|s.started| - 1].time + 1
    ensures var t := Exec(first, s, events); t.base == if t.started == [] then base else t.started[|t.started| - 1].time + 1
    decreases |events|
  {
    if events != [] {
      BaseFollowsLastBatch(first, Next(first, s, events[0]), events[1..], base);
    }
  }

  // ---------- One generator ----------

  /** The batches a generator goes through when it is asked again and again, empty ones included. */
  function Rounds(first: Crons, heads: seq<Head>, nows: seq<int>): (seq<Head>, seq<Batch>)
    decreases |nows|
  {
    if nows == [] || heads == [] then (heads, [])
    else
      var (after, batch) := Round(first, heads, nows[0]);
      var (last, batches) := Rounds(first, after, nows[1..]);
      (last, [batch] + batches)
  }

  /** Whether a job whose next instant is h starts at t when the time is now throughout. */
  predicate Due(h: Head, now: int, t: int) {
    h.job.policy == All || t >= now || (h.job.policy == Once && t == h.time)
  }

  lemma StartedAtCons(batch: Batch, batches: seq<Batch>, j: Job, t: int)
    ensures StartedAt([batch] + batches, j, t) <==> (batch.time == t && j in batch.jobs) || StartedAt(batches, j, t)
  {
    var all := [batch] + batches;
    assert all[0] == batch;
    assert forall i :: 0 <= i < |batches| ==> all[i + 1] == batches[i];
  }

  predicate OneHead(heads: seq<Head>, h: Head) {
    h in heads && forall g :: g in heads && g.job == h.job ==> g == h
  }

  lemma RoundMovesOneHead(first: Crons, heads: seq<Head>, now: int, h: Head)
    requires OneHead(heads, h)
    ensures var (after, batch) := Round(first, heads, now);
            && OneHead(after, Moved(first, h, batch.time, now)) && h.time >= batch.time
            && (h.job in batch.jobs <==> h.time == batch.time && Starts(h, now))
  {
    var (after, batch) := Round(first, heads, now);
    RoundTakesTheTies(first, heads, now);
    forall g | g in after && g.job == h.job ensures g == Moved(first, h, batch.time, now) {
      var f :| f in heads && g == Moved(first, f, batch.time, now);
    }
  }

  /** Nothing is started in later rounds before the instants the heads have reached. */
  lemma {:induction false} LaterRoundsStartLater(first: Crons, heads: seq<Head>, nows: seq<int>, h: Head, t: int)
    requires ValidCrons(first) && OneHead(heads, h) && t < h.time
    ensures !StartedAt(Rounds(first, heads, nows).1, h.job, t)
    decreases |nows|
  {
    if nows != [] {
      var (after, batch) := Round(first, heads, nows[0]);
      RoundMovesOneHead(first, heads, nows[0], h);
      DropsOnlyOverdue(first, h.job, h.time, nows[0], t);
      LaterRoundsStartLater(first, after, nows[1..], Moved(first, h, batch.time, nows[0]), t);
      StartedAtCons(batch, Rounds(first, after, nows[1..]).1, h.job, t);
    }
  }

  /**
   A generator asked any number of times at one time now: of the instants a job has gone
   through, ALL starts every one, SKIP exactly those not overdue, and ONCE those and the
   first, overdue or not.
   */
  lemma {:induction false} PoliciesAtOneTime(first: Crons, heads: seq<Head>, nows: seq<int>, now: int, h: Head)
    returns (last: Head)
    requires ValidCrons(first) && OneHead(heads, h) && Instant(first, h.job, h.time)
    requires forall i :: 0 <= i < |nows| ==> nows[i] == now
    ensures var (after, batches) := Rounds(first, heads, nows);
            && OneHead(after, last) && last.job == h.job && last.time >= h.time && Instant(first, h.job, last.time)
            && forall t :: h.time <= t < last.time && Instant(first, h.job, t) ==>
                 (StartedAt(batches, h.job, t) <==> Due(h, now, t))
    decreases |nows|
  {
    last := h;
    if nows != [] {
      var (after, batch) := Round(first, heads, now);
      var (end, batches) := Rounds(first, after, nows[1..]);
      RoundMovesOneHead(first, heads, now, h);
      var next := Moved(first, h, batch.time, now);
      DropsOnlyOverdue(first, h.job, h.time, now, 0);
      last := PoliciesAtOneTime(first, after, nows[1..], now, next);
      forall t | h.time <= t < last.time && Instant(first, h.job, t)
        ensures StartedAt([batch] + batches, h.job, t) <==> Due(h, now, t)
      {
        StartedAtCons(batch, batches, h.job, t);
        DropsOnlyOverdue(first, h.job, h.time, now, t);
        if t < next.time {
          LaterRoundsStartLater(first, after, nows[1..], next, t);
        }
      }
    }
  }

  /** Instants a job waited for, round by round: it holds one head before each round and one after the last. */
  predicate PathOf(path: seq<int>, rounds: nat) {
    |path| == rounds + 1 && forall i :: 0 <= i < rounds ==> path[i] <= path[i + 1]
  }

  /** In round i, asked at nows[i], the job went from path[i] to path[i + 1]. */
  predicate RoundIsJustified(first: Crons, job: Job, path: seq<int>, batches: seq<Batch>, nows: seq<int>, i: nat)
    requires i < |batches| && |path| == |batches| + 1 && |batches| <= |nows|
  {
    && (job in batches[i].jobs ==> batches[i].time == path[i] && (job.policy == Skip ==> path[i] >= nows[i]))
    && (path[i] < path[i + 1] && job !in batches[i].jobs ==> job.policy == Skip && path[i] < nows[i])
  }

  /** The instants strictly between two heads of the path were passed over in that round, overdue. */
  ghost predicate SkipsOnlyOverdue(first: Crons, job: Job, path: seq<int>, nows: seq<int>, i: nat)
    requires i + 1 < |path| && i < |nows|
  {
    forall t :: path[i] < t < path[i + 1] && Instant(first, job, t) ==> job.policy != All && t < nows[i]
  }

  lemma PathCons(first: Crons, job: Job, h: int, path: seq<int>, batch: Batch, batches: seq<Batch>, now: int, nows: seq<int>)
    requires |batches| <= |nows| && PathOf(path, |batches|) && h <= path[0]
    requires job in batch.jobs ==> batch.time == h && (job.policy == Skip ==> h >= now)
    requires h < path[0] && job !in batch.jobs ==> job.policy == Skip && h < now
    requires forall t :: h < t < path[0] && Instant(first, job, t) ==> job.policy != All && t < now
    requires forall i :: 0 <= i < |batches| ==>
               RoundIsJustified(first, job, path, batches, nows, i) && SkipsOnlyOverdue(first, job, path, nows, i)
    ensures PathOf([h] + path, |batches| + 1)
    ensures forall i :: 0 <= i < |batches| + 1 ==>
              && RoundIsJustified(first, job, [h] + path, [batch] + batches, [now] + nows, i)
              && SkipsOnlyOverdue(first, job, [h] + path, [now] + nows, i)
  {
    var p, b, n := [h] + path, [batch] + batches, [now] + nows;
    forall i | 0 <= i < |batches| + 1
      ensures RoundIsJustified(first, job, p, b, n, i) && SkipsOnlyOverdue(first, job, p, n, i) && p[i] <= p[i + 1]
    {
      if i > 0 {
        assert RoundIsJustified(first, job, path, batches, nows, i - 1) && SkipsOnlyOverdue(first, job, path, nows, i - 1);
      }
    }
  }

  lemma PathGrows(path: seq<int>, rounds: nat, i: nat, k: nat)
    requires PathOf(path, rounds) && i <= k <= rounds
    ensures path[i] <= path[k]
    decreases k - i
  {
    if i < k {
      PathGrows(path, rounds, i + 1, k);
    }
  }

  /** The heads of a job through the rounds of a generator, each round justified by its own time. */
  ghost predicate IsPath(first: Crons, heads: seq<Head>, nows: seq<int>, h: Head, path: seq<int>) {
    var batches := Rounds(first, heads, nows).1;
    && |batches| <= |nows| && PathOf(path, |batches|) && path[0] == h.time
    && (forall i :: 0 <= i <= |batches| ==> OneHead(Rounds(first, heads, nows[..i]).0, Head(path[i], h.job)))
    && (forall i :: 0 <= i < |batches| ==>
          RoundIsJustified(first, h.job, path, batches, nows, i) && SkipsOnlyOverdue(first, h.job, path, nows, i))
  }

  lemma RoundsFromSecond(first: Crons, heads: seq<Head>, nows: seq<int>, i: nat)
    requires heads != [] && nows != [] && i <= |nows|
    ensures Rounds(first, heads, nows[..i]).0 ==
            if i == 0 then heads else Rounds(first, Round(first, heads, nows[0]).0, nows[1..][..i - 1]).0
  {
    if i > 0 {
      assert nows[..i][1..] == nows[1..][..i - 1] && nows[..i][0] == nows[0];
    }
  }

  /**
   A generator asked at any times, round by round: a batch starts a SKIP job only if it was
   not overdue in that round, and every instant a round passes over was overdue in that round.
   ALL passes over nothing, and ONCE not over the instant it was waiting for.
   */
  lemma {:induction false} OnlyOverdueIsDropped(first: Crons, heads: seq<Head>, nows: seq<int>, h: Head)
    returns (path: seq<int>)
    requires ValidCrons(first) && OneHead(heads, h) && Instant(first, h.job, h.time)
    ensures IsPath(first, heads, nows, h, path)
    decreases |nows|
  {
    path := [h.time];
    if nows == [] {
      assert nows[..0] == [];
    } else {
      var now, rest := nows[0], nows[1..];
      var (after, batch) := Round(first, heads, now);
      var batches := Rounds(first, after, rest).1;
      RoundMovesOneHead(first, heads, now, h);
      var next := Moved(first, h, batch.time, now);
      DropsOnlyOverdue(first, h.job, h.time, now, 0);
      var later := OnlyOverdueIsDropped(first, after, rest, next);
      forall t | h.time < t < next.time && Instant(first, h.job, t) ensures h.job.policy != All && t < now {
        DropsOnlyOverdue(first, h.job, h.time, now, t);
      }
      PathCons(first, h.job, h.time, later, batch, batches, now, rest);
      path := [h.time] + later;
      assert nows == [now] + rest && Rounds(first, heads, nows).1 == [batch] + batches;
      forall i | 0 <= i <= |batches| + 1 ensures OneHead(Rounds(first, heads, nows[..i]).0, Head(path[i], h.job)) {
        RoundsFromSecond(first, heads, nows, i);
        assert i > 0 ==> path[i] == later[i - 1];
      }
    }
  }

  /** An instant between the first and the last head was passed in one round. */
  lemma {:induction false} PassedInOneRound(path: seq<int>, rounds: nat, t: int) returns (i: nat)
    requires PathOf(path, rounds) && path[0] <= t < path[rounds]
    ensures i < rounds && path[i] <= t < path[i + 1]
  {
    i := 0;
    while path[i + 1] <= t
      invariant i < rounds && path[i] <= t
      decreases rounds - i
    {
      i := i + 1;
    }
  }

  /** Whatever was passed and never started was dropped by one round, was overdue in it, and is no instant of an ALL job. */
  lemma UnstartedWasOverdue(first: Crons, heads: seq<Head>, nows: seq<int>, h: Head, path: seq<int>, t: int) returns (i: nat)
    requires IsPath(first, heads, nows, h, path) && Instant(first, h.job, t)
    requires h.time <= t < path[|path| - 1] && !StartedAt(Rounds(first, heads, nows).1, h.job, t)
    ensures i + 1 < |path| && i < |nows| && path[i] <= t < path[i + 1]
    ensures t < nows[i] && h.job.policy != All
  {
    var batches := Rounds(first, heads, nows).1;
    i := PassedInOneRound(path, |batches|, t);
    assert RoundIsJustified(first, h.job, path, batches, nows, i) && SkipsOnlyOverdue(first, h.job, path, nows, i);
  }
}
