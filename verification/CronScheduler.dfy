/**
 Merging of unbounded cron streams. Times are whole seconds. A cron is given by its first
 instant at or after a time; the merge keeps one upcoming instant per job.
 */
module CronScheduler {
  import opened Wrappers
  import opened FlatMaps
  import S = Sorting

  datatype Policy = Skip | Once | All

  /** A job as loaded; a changed expression or policy makes another job. */
  datatype Job = Job(id: nat, policy: Policy)

  /** The first instant of a job's cron at or after a time. */
  type Crons = (Job, int) -> int

  ghost predicate ValidCron(first: Crons, job: Job) {
    && (forall t :: first(job, t) >= t)
    && (forall t, u :: t <= u <= first(job, t) ==> first(job, u) == first(job, t))
  }

  ghost predicate ValidCrons(first: Crons) { forall job :: ValidCron(first, job) }

  predicate Instant(first: Crons, job: Job, t: int) { first(job, t) == t }

  /** An upcoming instant of a job. */
  datatype Head = Head(time: int, job: Job)

  /** Jobs due at the same instant. */
  datatype Batch = Batch(time: int, jobs: seq<Job>)

  lemma FirstIsNextInstant(first: Crons, job: Job, t: int)
    requires ValidCron(first, job)
    ensures Instant(first, job, first(job, t))
    ensures forall x :: t <= x && Instant(first, job, x) ==> first(job, t) <= x
    ensures forall u :: t <= u ==> first(job, t) <= first(job, u)
  {
    assert first(job, first(job, t)) == first(job, t);
    forall u | t <= u ensures first(job, t) <= first(job, u) {
      if first(job, t) > u { assert first(job, u) == first(job, t); }
    }
    forall x | t <= x && Instant(first, job, x) ensures first(job, t) <= x {
    }
  }

  // ---------- One round ----------

  /** The instant a job waits for after one of its instants was taken in a round at time now. */
  function Upcoming(first: Crons, job: Job, t: int, now: int): int {
    if job.policy == All || now <= t then first(job, t + 1) else first(job, now)
  }

  function Advance(first: Crons, now: int): Head -> seq<Head> {
    (h: Head) => [Head(Upcoming(first, h.job, h.time, now), h.job)]
  }

  predicate Starts(h: Head, now: int) { h.time >= now || h.job.policy != Skip }

  function Started(now: int): Head -> seq<Job> {
    (h: Head) => if Starts(h, now) then [h.job] else []
  }

  function Time(): Head -> real { (h: Head) => h.time as real }

  /** Stable sort by time. */
  function SortHeads(heads: seq<Head>): (r: seq<Head>)
    ensures |r| == |heads|
  {
    S.Sort(heads, Time())
  }

  predicate Sorted(heads: seq<Head>) {
    forall i, j :: 0 <= i < j < |heads| ==> heads[i].time <= heads[j].time
  }

  /** How many heads from the front are due at a time. */
  function DueCount(heads: seq<Head>, t: int): (n: nat)
    ensures n <= |heads| && forall i :: 0 <= i < n ==> heads[i].time == t
    ensures n < |heads| ==> heads[n].time != t
  {
    if heads == [] || heads[0].time != t then 0 else 1 + DueCount(heads[1..], t)
  }

  /** The heads after a round and the batch it yields, if any job starts. */
  function Round(first: Crons, heads: seq<Head>, now: int): (seq<Head>, Batch)
    requires heads != []
  {
    var sorted := SortHeads(heads);
    var t := sorted[0].time;
    var due := sorted[..DueCount(sorted, t)];
    (sorted[|due|..] + FlatMap(due, Advance(first, now)), Batch(t, FlatMap(due, Started(now))))
  }

  lemma SortHeadsSorts(heads: seq<Head>)
    ensures Sorted(SortHeads(heads))
  {
    S.SortSorts(heads, Time());
    var r := SortHeads(heads);
    forall i, j | 0 <= i < j < |r| ensures r[i].time <= r[j].time {
      assert Time()(r[i]) <= Time()(r[j]);
    }
  }

  function At(t: int): Head -> seq<Head> { (h: Head) => if h.time == t then [h] else [] }

  /** Jobs due at the same time keep their order. */
  lemma {:induction false} SortHeadsIsStable(heads: seq<Head>, t: int)
    ensures FlatMap(SortHeads(heads), At(t)) == FlatMap(heads, At(t))
  {
    if heads != [] {
      SortHeadsIsStable(heads[1..], t);
      InsertIsStable(heads[0], SortHeads(heads[1..]), t);
    }
  }

  lemma {:induction false} InsertIsStable(h: Head, sorted: seq<Head>, t: int)
    ensures FlatMap(S.Insert(h, sorted, Time()), At(t)) == At(t)(h) + FlatMap(sorted, At(t))
  {
    if sorted == [] || h.time <= sorted[0].time {
      assert ([h] + sorted)[1..] == sorted;
    } else {
      InsertIsStable(h, sorted[1..], t);
      var r := S.Insert(h, sorted, Time());
      assert r[1..] == S.Insert(h, sorted[1..], Time());
      AppendAssoc(At(t)(sorted[0]), At(t)(h), FlatMap(sorted[1..], At(t)));
      AppendAssoc(At(t)(h), At(t)(sorted[0]), FlatMap(sorted[1..], At(t)));
      assert At(t)(sorted[0]) + At(t)(h) == At(t)(h) + At(t)(sorted[0]);
    }
  }

  // ---------- What a round means for each job ----------

  /** A head after a round that took the instant t. */
  function Moved(first: Crons, h: Head, t: int, now: int): Head {
    if h.time == t then Head(Upcoming(first, h.job, t, now), h.job) else h
  }

  lemma {:induction false} AdvanceMembers(first: Crons, due: seq<Head>, now: int, x: Head)
    ensures x in FlatMap(due, Advance(first, now)) <==> exists h :: h in due && x == Advance(first, now)(h)[0]
  {
    if due != [] {
      AdvanceMembers(first, due[1..], now, x);
      assert due == [due[0]] + due[1..];
    }
  }

  lemma {:induction false} StartedMembers(due: seq<Head>, now: int, j: Job)
    ensures j in FlatMap(due, Started(now)) <==> exists h :: h in due && Starts(h, now) && h.job == j
  {
    if due != [] {
      StartedMembers(due[1..], now, j);
      assert due == [due[0]] + due[1..];
    }
  }

  lemma LaterThanTies(sorted: seq<Head>)
    requires Sorted(sorted) && sorted != []
    ensures var n := DueCount(sorted, sorted[0].time);
            n > 0 && forall i :: n <= i < |sorted| ==> sorted[i].time > sorted[0].time
  {
    var n := DueCount(sorted, sorted[0].time);
    forall i | n <= i < |sorted| ensures sorted[i].time > sorted[0].time {
      assert sorted[n].time >= sorted[0].time && (n == i || sorted[i].time >= sorted[n].time);
    }
  }

  lemma DueSplit(heads: seq<Head>)
    requires heads != []
    ensures var sorted := SortHeads(heads);
            var t := sorted[0].time;
            var n := DueCount(sorted, t);
            && n > 0
            && (forall h :: h in heads <==> h in sorted[..n] || h in sorted[n..])
            && (forall h :: h in sorted[..n] ==> h.time == t)
            && (forall h :: h in sorted[n..] ==> h.time > t)
  {
    var sorted := SortHeads(heads);
    var n := DueCount(sorted, sorted[0].time);
    SortHeadsSorts(heads);
    LaterThanTies(sorted);
    forall h ensures h in heads <==> h in sorted[..n] || h in sorted[n..] {
      S.SortMembers(heads, Time(), h);
      assert sorted == sorted[..n] + sorted[n..];
    }
  }

  /**
   A round takes exactly the heads tied at the minimum: every other head stays, each taken
   one moves on, and the batch holds exactly the taken jobs that start.
   */
  lemma RoundTakesTheTies(first: Crons, heads: seq<Head>, now: int)
    requires heads != []
    ensures var (after, batch) := Round(first, heads, now);
            && (exists h :: h in heads && h.time == batch.time) && (forall h :: h in heads ==> batch.time <= h.time)
            && (forall h :: h in heads ==> Moved(first, h, batch.time, now) in after)
            && (forall x :: x in after ==> exists h :: h in heads && x == Moved(first, h, batch.time, now))
            && (forall j :: j in batch.jobs <==> Head(batch.time, j) in heads && Starts(Head(batch.time, j), now))
  {
    var sorted := SortHeads(heads);
    var t := sorted[0].time;
    var n := DueCount(sorted, t);
    var due, rest := sorted[..n], sorted[n..];
    var (after, batch) := Round(first, heads, now);
    DueSplit(heads);
    assert sorted[0] == due[0] && due[0] in due;
    forall h | h in heads ensures Moved(first, h, t, now) in after {
      if h in due {
        AdvanceMembers(first, due, now, Moved(first, h, t, now));
        assert Moved(first, h, t, now) == Advance(first, now)(h)[0];
      }
    }
    forall x | x in after ensures exists h :: h in heads && x == Moved(first, h, t, now) {
      AdvanceMembers(first, due, now, x);
      if x in rest {
        assert x == Moved(first, x, t, now);
      } else {
        var h :| h in due && x == Advance(first, now)(h)[0];
        assert x == Moved(first, h, t, now);
      }
    }
    forall j ensures j in batch.jobs <==> Head(t, j) in heads && Starts(Head(t, j), now) {
      StartedMembers(due, now, j);
      assert forall h :: h in due && h.job == j ==> h == Head(t, j);
    }
  }

  /**
   Which instants a job loses when it moves on: none under ALL, and otherwise only instants
   that were overdue in that very round.
   */
  lemma DropsOnlyOverdue(first: Crons, job: Job, t: int, now: int, x: int)
    requires ValidCron(first, job)
    ensures Upcoming(first, job, t, now) > t && Instant(first, job, Upcoming(first, job, t, now))
    ensures t < x < Upcoming(first, job, t, now) && Instant(first, job, x) ==> x < now && job.policy != All
    ensures job.policy != All ==> Upcoming(first, job, t, now) >= now || now <= t
  {
    FirstIsNextInstant(first, job, t + 1);
    FirstIsNextInstant(first, job, now);
  }

  // ---------- The scheduler ----------

  /** Fresh heads for the jobs of a load. */
  function Heads(first: Crons, base: int): Job -> seq<Head> { (j: Job) => [Head(first(j, base), j)] }

  class Scheduler {
    const first: Crons
    var baseTime: int
    var jobListHead: seq<Head>
    /** The batch yielded last, while the thread waits for its time. */
    var pending: Option<Batch>
    /** Batches started so far. */
    var started: seq<Batch>

    constructor (first: Crons, baseTime: int)
      ensures this.first == first && this.baseTime == baseTime
      ensures jobListHead == [] && pending == None && started == []
    {
      this.first, this.baseTime := first, baseTime;
      jobListHead, pending, started := [], None, [];
    }

    /** A new generator: upcoming instants from the base time, or none if loading failed. */
    method LoadJobs(jobs: Option<seq<Job>>)
      modifies this`jobListHead, this`pending
      ensures jobListHead == if jobs.Some? then FlatMap(jobs.value, Heads(first, baseTime)) else []
      ensures pending == None
    {
      jobListHead, pending := [], None;
      if jobs.Some? {
        for i := 0 to |jobs.value|
          invariant jobListHead == FlatMap(jobs.value[..i], Heads(first, baseTime)) && pending == None
        {
          FlatMapPrefix(jobs.value, i, Heads(first, baseTime));
          jobListHead := jobListHead + [Head(first(jobs.value[i], baseTime), jobs.value[i])];
        }
        assert jobs.value[..|jobs.value|] == jobs.value;
      }
    }

    /** The catch-up loop: instants already overdue are skipped, except under ALL. */
    method NextTrigger(job: Job, t: int, now: int) returns (next: int)
      requires ValidCron(first, job)
      ensures next == Upcoming(first, job, t, now)
    {
      next := first(job, t + 1);
      while job.policy != All && next < now
        invariant next > t && (job.policy == All ==> next == first(job, t + 1))
        invariant next == first(job, t + 1) || (now > t && next <= first(job, now))
        invariant now <= t ==> next == first(job, t + 1)
        invariant next < now ==> first(job, next + 1) <= first(job, now)
        invariant next >= now && now > t && job.policy != All ==> next == first(job, now)
        decreases now - next
      {
        FirstIsNextInstant(first, job, next + 1);
        next := first(job, next + 1);
        CatchUpStep(job, next, now);
      }
    }

    lemma CatchUpStep(job: Job, next: int, now: int)
      requires ValidCron(first, job)
      ensures next < now ==> first(job, next + 1) <= first(job, now)
    {
      FirstIsNextInstant(first, job, next + 1);
    }

    /** Pops the front head, moves it on to the back and notes its job if it starts. */
    method TakeFront(heads: seq<Head>, jobs: seq<Job>, now: int, ghost sorted: seq<Head>, ghost i: nat)
      returns (after: seq<Head>, starting: seq<Job>)
      requires ValidCrons(first) && i < |sorted|
      requires heads == sorted[i..] + FlatMap(sorted[..i], Advance(first, now))
      requires jobs == FlatMap(sorted[..i], Started(now))
      ensures after == sorted[i + 1..] + FlatMap(sorted[..i + 1], Advance(first, now))
      ensures starting == FlatMap(sorted[..i + 1], Started(now))
    {
      var head := heads[0];
      var next := NextTrigger(head.job, head.time, now);
      after := heads[1..] + [Head(next, head.job)];
      starting := if head.time >= now || head.job.policy == All || head.job.policy == Once then jobs + [head.job] else jobs;
      TakeOne(sorted, i, now, after);
      FlatMapPrefix(sorted, i, Started(now));
    }

    /** One turn of the generator: sort, take the ties at the front, move each on. */
    method NextRound(now: int)
      requires jobListHead != [] && ValidCrons(first)
      modifies this`jobListHead, this`pending
      ensures var (after, batch) := Round(first, old(jobListHead), now);
              && jobListHead == after
              && pending == if batch.jobs != [] then Some(batch) else None
    {
      var heads := SortHeads(jobListHead);
      ghost var sorted := heads;
      ghost var n := DueCount(sorted, sorted[0].time);
      SortHeadsSorts(jobListHead);
      var triggeringTime := heads[0].time;
      var jobs: seq<Job> := [];
      ghost var i := 0;
      while true
        invariant 0 <= i < n && triggeringTime == sorted[0].time
        invariant heads == sorted[i..] + FlatMap(sorted[..i], Advance(first, now))
        invariant jobs == FlatMap(sorted[..i], Started(now))
        decreases n - i
      {
        triggeringTime := heads[0].time;
        heads, jobs := TakeFront(heads, jobs, now, sorted, i);
        i := i + 1;
        LeaveAfterTies(sorted, i, now);
        if triggeringTime < heads[0].time {
          break;
        }
      }
      jobListHead := heads;
      pending := if jobs != [] then Some(Batch(triggeringTime, jobs)) else None;
    }

    lemma TakeOne(sorted: seq<Head>, i: nat, now: int, after: seq<Head>)
      requires i < |sorted|
      requires after == (sorted[i..] + FlatMap(sorted[..i], Advance(first, now)))[1..]
                        + [Head(Upcoming(first, sorted[i].job, sorted[i].time, now), sorted[i].job)]
      ensures after == sorted[i + 1..] + FlatMap(sorted[..i + 1], Advance(first, now))
    {
      FlatMapPrefix(sorted, i, Advance(first, now));
      AppendAssoc(sorted[i + 1..], FlatMap(sorted[..i], Advance(first, now)), Advance(first, now)(sorted[i]));
      assert sorted[i..] == [sorted[i]] + sorted[i + 1..];
    }

    /** The head that follows is later exactly when every tie has been taken. */
    lemma LeaveAfterTies(sorted: seq<Head>, i: nat, now: int)
      requires ValidCrons(first) && sorted != [] && Sorted(sorted) && 0 < i <= DueCount(sorted, sorted[0].time)
      ensures var heads := sorted[i..] + FlatMap(sorted[..i], Advance(first, now));
              heads != [] && (sorted[0].time < heads[0].time <==> i == DueCount(sorted, sorted[0].time))
    {
      FlatMapAppend([sorted[0]], sorted[1..i], Advance(first, now));
      FlatMapOne(sorted[0], Advance(first, now));
      assert sorted[..i] == [sorted[0]] + sorted[1..i];
      DropsOnlyOverdue(first, sorted[0].job, sorted[0].time, now, 0);
    }

    /** The wait for the pending batch ended by timeout: its jobs start and the base moves past it. */
    method StartPending()
      requires pending.Some?
      modifies this`baseTime, this`pending, this`started
      ensures started == old(started) + [old(pending).value] && pending == None
      ensures baseTime == old(pending).value.time + 1
    {
      started := started + [pending.value];
      baseTime := pending.value.time + 1;
      pending := None;
    }
  }
}
