/**
 The poll loop on a quiet queue: nobody else writes and no subprocess of this scheduler is
 alive. Consecutive polls drain the queue, and a restart cancels what an earlier process left.
 */
module PollLoop {
  import opened Wrappers
  import opened FlatMaps
  import opened JobExecutions
  import opened JobRegistry

  /** What the poller does to a row it has just claimed or found cancel-requested; known: it holds a subprocess of the job. */
  function HandleRow(row: Row, known: bool, now: int): Row {
    if row.status == Claimed then
      if row.jobKey in JOB_DISPATCH then row else MarkInterrupted(row, now, UNKNOWN_KEY).0
    else if row.status == CancelRequested && !known then MarkCanceled(row, now).0
    else row
  }

  function PollRow(row: Row, known: bool, now: int): Row { HandleRow(ClaimRow(row, now), known, now) }

  function PollRows(rows: seq<Row>, ids: seq<nat>, known: set<nat>, now: int): (r: seq<Row>)
    ensures |r| == |rows|
  {
    seq(|rows|, i requires 0 <= i < |rows| => if i in ids then PollRow(rows[i], i in known, now) else rows[i])
  }

  /** What a poller does besides writing rows. */
  datatype Action = Spawn(id: nat) | Terminate(id: nat) | CallBack(id: nat)

  function RowActions(row: Row, id: nat, known: bool): seq<Action> {
    if row.status == Claimed && row.jobKey in JOB_DISPATCH then [Spawn(id)]
    else if row.status == CancelRequested then [if known then Terminate(id) else CallBack(id)]
    else []
  }

  function ActionsAt(rows: seq<Row>, known: set<nat>): nat -> seq<Action> {
    (id: nat) => if id < |rows| then RowActions(ClaimRow(rows[id], 0), id, id in known) else []
  }

  /** Subprocesses started and terminated, and jobs whose final callbacks run, in the order of the batch. */
  function Actions(rows: seq<Row>, ids: seq<nat>, known: set<nat>): seq<Action> {
    FlatMap(ids, ActionsAt(rows, known))
  }

  function Actionable(rows: seq<Row>): seq<nat> { ActionableFrom(rows, 0, {}) }

  /** A row leaves the queue in one poll: dispatched, failed as unknown, or canceled. */
  lemma PolledRowSettles(row: Row, now: int)
    requires IsActionable(row)
    ensures !IsActionable(PollRow(row, false, now))
    ensures PollRow(row, false, now).status ==
            if row.status == CancelRequested then Canceled else if row.jobKey in JOB_DISPATCH then Claimed else Error
  {
    FirstAllowedIsAllowed(Claimed, [Error, Canceled]);
    FirstAllowedIsAllowed(CancelRequested, [Canceled]);
  }

  lemma {:induction false} IncreasingSame(a: seq<nat>, b: seq<nat>)
    requires forall i, j :: 0 <= i < j < |a| ==> a[i] < a[j]
    requires forall i, j :: 0 <= i < j < |b| ==> b[i] < b[j]
    requires forall x: nat :: x in a <==> x in b
    ensures a == b
  {
    assert (forall i :: 0 <= i < |a| ==> a[i] in b) && (forall i :: 0 <= i < |b| ==> b[i] in a);
    if a == [] || b == [] {
    } else {
      assert a[0] == b[0];
      forall x: nat ensures x in a[1..] <==> x in b[1..] {
        assert x in a <==> x == a[0] || x in a[1..];
        assert x in b <==> x == b[0] || x in b[1..];
      }
      IncreasingSame(a[1..], b[1..]);
    }
  }

  lemma SliceMembership(all: seq<nat>, n: nat, x: nat)
    requires n <= |all| && forall i, j :: 0 <= i < j < |all| ==> all[i] < all[j]
    ensures x in all[n..] <==> x in all && x !in all[..n]
  {
    assert all == all[..n] + all[n..];
    assert forall i, j :: 0 <= i < n && 0 <= j < |all| - n ==> all[..n][i] < all[n..][j];
  }

  /** A poll takes exactly the oldest actionable rows off the queue. */
  lemma PollTakesOldest(rows: seq<Row>, n: nat, now: int)
    requires n <= |Actionable(rows)|
    ensures Actionable(PollRows(rows, Actionable(rows)[..n], {}, now)) == Actionable(rows)[n..]
  {
    var all := Actionable(rows);
    var polled := PollRows(rows, all[..n], {}, now);
    forall x: nat ensures x in Actionable(polled) <==> x in all[n..] {
      SliceMembership(all, n, x);
      assert x in all <==> x < |rows| && IsActionable(rows[x]);
      assert x in Actionable(polled) <==> x < |rows| && IsActionable(polled[x]);
      if x < |rows| && x in all[..n] {
        assert x in all;
        PolledRowSettles(rows[x], now);
      }
    }
    IncreasingSame(Actionable(polled), all[n..]);
  }

  /**
   What a poll does about each row it takes: a subprocess for a pending row of a known kind, a
   signal to the process of a row asked to cancel if one is known, and callbacks if none is.
   Nothing is done about other rows.
   */
  lemma {:induction false} PollActs(rows: seq<Row>, ids: seq<nat>, known: set<nat>, id: nat)
    ensures Spawn(id) in Actions(rows, ids, known) <==>
            id in ids && id < |rows| && rows[id].status in {Pending, Claimed} && rows[id].jobKey in JOB_DISPATCH
    ensures Terminate(id) in Actions(rows, ids, known) <==>
            id in ids && id < |rows| && rows[id].status == CancelRequested && id in known
    ensures CallBack(id) in Actions(rows, ids, known) <==>
            id in ids && id < |rows| && rows[id].status == CancelRequested && id !in known
  {
    if ids != [] {
      PollActs(rows, ids[1..], known, id);
      var head := ActionsAt(rows, known)(ids[0]);
      assert forall a :: a in Actions(rows, ids, known) <==> a in head || a in Actions(rows, ids[1..], known);
      assert id in ids <==> id == ids[0] || id in ids[1..];
    }
  }

  /** What becomes of a row that a poll takes while its process is known: a request is left for the process to settle. */
  lemma PolledRow(row: Row, known: bool, now: int)
    requires IsActionable(row)
    ensures PollRow(row, known, now) ==
            if row.status == CancelRequested then
              if known then row else row.(status := Canceled, completedAt := Some(now))
            else if row.jobKey in JOB_DISPATCH then row.(status := Claimed, claimedAt := Some(now))
            else row.(status := Error, claimedAt := Some(now), completedAt := Some(now), errorMessage := Some(UNKNOWN_KEY))
  {
    FirstAllowedIsAllowed(Claimed, [Error, Canceled]);
    FirstAllowedIsAllowed(CancelRequested, [Canceled]);
    assert [Error, Canceled][0] == Error && [Canceled][0] == Canceled;
  }

  /** The table while a batch is being handled: the first i rows done, the others claimed. */
  function Midway(rows: seq<Row>, ids: seq<nat>, i: nat, known: set<nat>, now: int): (r: seq<Row>)
    requires i <= |ids|
    ensures |r| == |rows|
  {
    seq(|rows|, k requires 0 <= k < |rows| =>
      if k in ids[..i] then PollRow(rows[k], k in known, now) else if k in ids then ClaimRow(rows[k], now) else rows[k])
  }

  lemma MidwayStep(rows: seq<Row>, ids: seq<nat>, i: nat, known: set<nat>, now: int)
    requires i < |ids| && ids[i] < |rows| && forall j :: 0 <= j < i ==> ids[j] != ids[i]
    ensures Midway(rows, ids, i, known, now)[ids[i]] == ClaimRow(rows[ids[i]], now)
    ensures Midway(rows, ids, i, known, now)[ids[i] := PollRow(rows[ids[i]], ids[i] in known, now)]
         == Midway(rows, ids, i + 1, known, now)
    ensures RowActions(ClaimRow(rows[ids[i]], now), ids[i], ids[i] in known) == ActionsAt(rows, known)(ids[i])
  {
    assert ids[..i + 1] == ids[..i] + [ids[i]];
    assert ids[i] in ids && ids[i] !in ids[..i];
  }

  /** Rows taken by a number of polls that all got a full batch. */
  function FullBatches(polls: nat, limit: nat): nat { polls * limit }

  lemma OneMoreBatch(polls: nat, limit: nat)
    ensures FullBatches(polls + 1, limit) == FullBatches(polls, limit) + limit
  {
  }

  lemma QuotientIs(n: nat, limit: nat, q: nat)
    requires limit > 0 && q * limit <= n < q * limit + limit
    ensures n / limit == q
  {
    var quotient := n / limit;
    assert quotient * limit <= n < quotient * limit + limit;
    assert quotient < q ==> (quotient + 1) * limit <= q * limit;
    assert q < quotient ==> (q + 1) * limit <= quotient * limit;
  }

  /** Two polls on disjoint batches are one poll on both. */
  lemma PollTwice(rows: seq<Row>, a: seq<nat>, b: seq<nat>, now: int)
    requires forall id :: id in a ==> id !in b
    ensures PollRows(PollRows(rows, a, {}, now), b, {}, now) == PollRows(rows, a + b, {}, now)
    ensures Actions(rows, a, {}) + Actions(PollRows(rows, a, {}, now), b, {}) == Actions(rows, a + b, {})
  {
    FlatMapAppend(a, b, ActionsAt(rows, {}));
    forall i | 0 <= i < |b| ensures ActionsAt(rows, {})(b[i]) == ActionsAt(PollRows(rows, a, {}, now), {})(b[i]) {
      assert b[i] in b;
    }
    FlatMapSame(b, ActionsAt(rows, {}), ActionsAt(PollRows(rows, a, {}, now), {}));
  }

  lemma DrainStart(rows: seq<Row>, now: int)
    ensures rows == PollRows(rows, [], {}, now) && Actions(rows, [], {}) == []
  {
  }

  lemma DrainEnd(rows: seq<Row>, now: int)
    ensures Actionable(PollRows(rows, Actionable(rows), {}, now)) == []
  {
    var all := Actionable(rows);
    assert all[..|all|] == all && all[|all|..] == [];
    PollTakesOldest(rows, |all|, now);
  }

  lemma SliceOfSlice(all: seq<nat>, done: nat, n: nat)
    requires done + n <= |all| && forall i, j :: 0 <= i < j < |all| ==> all[i] < all[j]
    ensures all[..done + n] == all[..done] + all[done..][..n]
    ensures forall id :: id in all[..done] ==> id !in all[done..][..n]
  {
    forall id | id in all[..done] ensures id !in all[done..][..n] {
      SliceMembership(all, done, id);
      assert forall i :: 0 <= i < n ==> all[done..][..n][i] == all[done..][i];
    }
  }

  /** What a poll takes when the given rows are already off the front of the queue. */
  lemma NextRows(rows: seq<Row>, taken: seq<nat>, ids: seq<nat>, limit: nat, now: int)
    requires taken <= Actionable(rows) && ids == Take(Actionable(PollRows(rows, taken, {}, now)), limit)
    ensures taken + ids <= Actionable(rows)
    ensures if |ids| >= limit then |ids| == limit else taken + ids == Actionable(rows)
    ensures forall id :: id in taken ==> id !in ids
  {
    var all, done := Actionable(rows), |taken|;
    assert taken == all[..done];
    PollTakesOldest(rows, done, now);
    assert ids == all[done..][..|ids|];
    SliceOfSlice(all, done, |ids|);
  }

  /** One poll of a drain: it takes the next rows of the original queue. */
  lemma DrainStep(rows: seq<Row>, taken: seq<nat>, ids: seq<nat>, limit: nat, now: int)
    requires taken <= Actionable(rows) && ids == Take(Actionable(PollRows(rows, taken, {}, now)), limit)
    ensures taken + ids <= Actionable(rows)
    ensures if |ids| >= limit then |ids| == limit else taken + ids == Actionable(rows)
    ensures var before := PollRows(rows, taken, {}, now);
            && PollRows(before, ids, {}, now) == PollRows(rows, taken + ids, {}, now)
            && Actions(rows, taken, {}) + Actions(before, ids, {}) == Actions(rows, taken + ids, {})
  {
    NextRows(rows, taken, ids, limit, now);
    PollTwice(rows, taken, ids, now);
  }

  class CliScheduler {
    const table: JobTable
    /** Which callbacks raise; a poller does not let that stop it. */
    const raises: Callback -> bool
    /** Subprocesses known by job id. */
    var runningJobs: map<nat, nat>
    /** What was done besides writing rows, oldest first. */
    var actions: seq<Action>

    constructor (table: JobTable, raises: Callback -> bool)
      ensures this.table == table && this.raises == raises && runningJobs == map[] && actions == []
    {
      this.table, this.raises := table, raises;
      runningJobs, actions := map[], [];
    }

    /** Handling of one claimed or cancel-requested row. */
    method Handle(id: nat, now: int)
      requires id < |table.rows|
      modifies this`actions, table
      ensures table.rows == old(table.rows)[id := HandleRow(old(table.rows)[id], id in runningJobs, now)]
      ensures actions == old(actions) + RowActions(old(table.rows)[id], id, id in runningJobs)
    {
      var jobExec := new JobExecution(table, id);
      match jobExec.copy.status {
        case Claimed => Dispatch(jobExec, now);
        case CancelRequested => HandleCancellation(jobExec, now);
        case _ =>
      }
    }

    method Dispatch(jobExec: JobExecution, now: int)
      requires jobExec.table == table && jobExec.id < |table.rows|
      requires jobExec.copy == table.rows[jobExec.id] && jobExec.copy.status == Claimed
      modifies this`actions, table, jobExec
      ensures table.rows == old(table.rows)[jobExec.id := HandleRow(old(table.rows)[jobExec.id], jobExec.id in runningJobs, now)]
      ensures actions == old(actions) + RowActions(old(table.rows)[jobExec.id], jobExec.id, jobExec.id in runningJobs)
    {
      if jobExec.copy.jobKey in JOB_DISPATCH {
        actions := actions + [Spawn(jobExec.id)];
      } else {
        var _ := jobExec.Update([Error, Canceled], Values(None, Some(now), Some(UNKNOWN_KEY)));
      }
    }

    method HandleCancellation(jobExec: JobExecution, now: int)
      requires jobExec.table == table && jobExec.id < |table.rows|
      requires jobExec.copy == table.rows[jobExec.id] && jobExec.copy.status == CancelRequested
      modifies this`actions, table, jobExec
      ensures table.rows == old(table.rows)[jobExec.id := HandleRow(old(table.rows)[jobExec.id], jobExec.id in runningJobs, now)]
      ensures actions == old(actions) + RowActions(old(table.rows)[jobExec.id], jobExec.id, jobExec.id in runningJobs)
    {
      FirstAllowedIsAllowed(CancelRequested, [Canceled]);
      if jobExec.id in runningJobs {
        actions := actions + [Terminate(jobExec.id)];
      } else {
        var canceled := jobExec.Update([Canceled], Values(None, Some(now), None));
        if canceled {
          var attempted, failed, submitted := RunFinalCallbacks(jobExec.copy, raises);
          actions := actions + [CallBack(jobExec.id)];
          assert submitted == [];
        }
      }
    }

    method HandleNext(ids: seq<nat>, i: nat, now: int, ghost rows: seq<Row>)
      requires i < |ids| && ids[i] < |rows| && forall j :: 0 <= j < i ==> ids[j] != ids[i]
      requires table.rows == Midway(rows, ids, i, runningJobs.Keys, now)
      modifies this`actions, table
      ensures table.rows == Midway(rows, ids, i + 1, runningJobs.Keys, now)
      ensures actions == old(actions) + ActionsAt(rows, runningJobs.Keys)(ids[i])
    {
      MidwayStep(rows, ids, i, runningJobs.Keys, now);
      Handle(ids[i], now);
    }

    /** Handling of a freshly claimed batch, row by row. */
    method HandleBatch(ids: seq<nat>, now: int, ghost rows: seq<Row>)
      requires table.rows == ClaimRows(rows, ids, now)
      requires forall i :: 0 <= i < |ids| ==> ids[i] < |rows|
      requires forall i, j :: 0 <= i < j < |ids| ==> ids[i] < ids[j]
      modifies this`actions, table
      ensures table.rows == PollRows(rows, ids, runningJobs.Keys, now)
      ensures actions == old(actions) + Actions(rows, ids, runningJobs.Keys)
    {
      ghost var known, start := runningJobs.Keys, actions;
      for i := 0 to |ids|
        invariant table.rows == Midway(rows, ids, i, known, now)
        invariant actions == start + Actions(rows, ids[..i], known)
      {
        FlatMapPrefix(ids, i, ActionsAt(rows, known));
        AppendAssoc(start, Actions(rows, ids[..i], known), ActionsAt(rows, known)(ids[i]));
        HandleNext(ids, i, now, rows);
      }
      assert ids[..|ids|] == ids;
    }

    /** One poll: claim a batch of rows nobody else has locked, then handle them in order. */
    method PollOnce(limit: nat, locked: set<nat>, now: int) returns (ids: seq<nat>)
      modifies this`actions, table
      ensures ids == Take(ActionableFrom(old(table.rows), 0, locked), limit)
      ensures table.rows == PollRows(old(table.rows), ids, runningJobs.Keys, now)
      ensures actions == old(actions) + Actions(old(table.rows), ids, runningJobs.Keys)
    {
      ids := table.ClaimActionable(limit, locked, now);
      HandleBatch(ids, now, old(table.rows));
    }

    /** One poll of a drain that has already taken the given rows off the front of the queue. */
    method DrainOnce(limit: nat, now: int, ghost rows: seq<Row>, ghost taken: seq<nat>, ghost start: seq<Action>)
      returns (full: bool, ghost after: seq<nat>)
      requires runningJobs == map[] && taken <= Actionable(rows)
      requires table.rows == PollRows(rows, taken, {}, now) && actions == start + Actions(rows, taken, {})
      modifies this`actions, table
      ensures after <= Actionable(rows)
      ensures table.rows == PollRows(rows, after, {}, now) && actions == start + Actions(rows, after, {})
      ensures full ==> |after| == |taken| + limit
      ensures !full ==> after == Actionable(rows) && |after| < |taken| + limit
    {
      assert runningJobs.Keys == {};
      var ids := PollOnce(limit, {}, now);
      full := |ids| >= limit;
      after := taken + ids;
      DrainStep(rows, taken, ids, limit, now);
      AppendAssoc(start, Actions(rows, taken, {}), Actions(old(table.rows), ids, {}));
    }

    method PollUntilDrained(limit: nat, now: int, ghost rows: seq<Row>) returns (polls: nat)
      requires limit > 0 && runningJobs == map[] && rows == table.rows
      modifies this`actions, table
      ensures table.rows == PollRows(rows, Actionable(rows), {}, now)
      ensures actions == old(actions) + Actions(rows, Actionable(rows), {})
      ensures polls > 0 && FullBatches(polls - 1, limit) <= |Actionable(rows)| < FullBatches(polls, limit)
    {
      ghost var start, taken: seq<nat> := actions, [];
      var skipWait := true;
      polls := 0;
      DrainStart(rows, now);
      while skipWait
        invariant taken <= Actionable(rows)
        invariant table.rows == PollRows(rows, taken, {}, now) && actions == start + Actions(rows, taken, {})
        invariant skipWait ==> |taken| == FullBatches(polls, limit)
        invariant !skipWait ==>
                    taken == Actionable(rows) && polls > 0
                    && FullBatches(polls - 1, limit) <= |taken| < FullBatches(polls, limit)
        decreases if skipWait then 1 + |Actionable(rows)| - |taken| else 0
      {
        OneMoreBatch(polls, limit);
        skipWait, taken := DrainOnce(limit, now, rows, taken, start);
        polls := polls + 1;
      }
    }

    /**
     Polling until a batch is not full. With n actionable rows and a positive batch size the
     loop takes exactly n / limit + 1 polls, leaves no actionable row, starts subprocesses for
     exactly the pending rows of known kinds and runs callbacks for exactly the canceled ones,
     oldest first and no row twice.
     */
    method Drain(limit: nat, now: int) returns (polls: nat)
      requires limit > 0 && runningJobs == map[]
      modifies this`actions, table
      ensures polls == |Actionable(old(table.rows))| / limit + 1
      ensures Actionable(table.rows) == []
      ensures table.rows == PollRows(old(table.rows), Actionable(old(table.rows)), {}, now)
      ensures actions == old(actions) + Actions(old(table.rows), Actionable(old(table.rows)), {})
    {
      ghost var rows := table.rows;
      polls := PollUntilDrained(limit, now, rows);
      OneMoreBatch(polls - 1, limit);
      QuotientIs(|Actionable(rows)|, limit, polls - 1);
      DrainEnd(rows, now);
    }
  }

  // ---------- Restart ----------

  function SweptRow(row: Row): Row { RequestCancel(row).0 }

  function SweepRows(rows: seq<Row>): (r: seq<Row>)
    ensures |r| == |rows|
  {
    seq(|rows|, i requires 0 <= i < |rows| => SweptRow(rows[i]))
  }

  function StaleCount(rows: seq<Row>): nat {
    if rows == [] then 0 else (if Terminal(rows[0].status) then 0 else 1) + StaleCount(rows[1..])
  }

  lemma SweepRequestsCancel(row: Row)
    ensures if Terminal(row.status) then RequestCancel(row) == (row, false)
            else RequestCancel(row).1 && SweptRow(row) == row.(status := CancelRequested)
  {
    FirstAllowedIsAllowed(row.status, [CancelRequested]);
    assert [CancelRequested][0] == CancelRequested;
  }

  lemma {:induction false} StaleCountSnoc(rows: seq<Row>, row: Row)
    ensures StaleCount(rows + [row]) == StaleCount(rows) + if Terminal(row.status) then 0 else 1
  {
    if rows == [] {
      assert [row][1..] == [] && [] + [row] == [row];
    } else {
      StaleCountSnoc(rows[1..], row);
      assert (rows + [row])[1..] == rows[1..] + [row];
    }
  }

  /** The startup sweep requests cancellation of every row that is not terminal. */
  method StartupSweep(table: JobTable) returns (requested: nat)
    modifies table
    ensures table.rows == SweepRows(old(table.rows))
    ensures requested == StaleCount(old(table.rows))
  {
    ghost var rows := table.rows;
    requested := 0;
    for id := 0 to |table.rows|
      invariant |table.rows| == |rows|
      invariant forall k :: 0 <= k < |rows| ==> table.rows[k] == if k < id then SweptRow(rows[k]) else rows[k]
      invariant requested == StaleCount(rows[..id])
    {
      SweepRequestsCancel(rows[id]);
      StaleCountSnoc(rows[..id], rows[id]);
      assert rows[..id + 1] == rows[..id] + [rows[id]];
      if !Terminal(table.rows[id].status) {
        var jobExec := new JobExecution(table, id);
        var ok := jobExec.Update([CancelRequested], Values(None, None, None));
        if ok {
          requested := requested + 1;
        }
      }
    }
    assert rows[..|rows|] == rows;
  }

  function CallBacks(ids: seq<nat>): seq<Action> { seq(|ids|, i requires 0 <= i < |ids| => CallBack(ids[i])) }

  /** Rows that all ask for cancellation start nothing: each gets its callbacks. */
  lemma {:induction false} OnlyCallbacks(rows: seq<Row>, ids: seq<nat>)
    requires forall i :: 0 <= i < |ids| ==> ids[i] < |rows| && rows[ids[i]].status == CancelRequested
    ensures Actions(rows, ids, {}) == CallBacks(ids)
  {
    if ids != [] {
      OnlyCallbacks(rows, ids[1..]);
      assert ActionsAt(rows, {})(ids[0]) == [CallBack(ids[0])];
    }
  }

  /**
   A restart on a quiet queue: every row left over by an earlier process ends CANCELED, the
   terminal rows are untouched, no handler is started, and the callbacks run once for each
   canceled row.
   */
  method Restart(table: JobTable, raises: Callback -> bool, limit: nat, now: int) returns (scheduler: CliScheduler, polls: nat)
    requires limit > 0
    modifies table
    ensures |table.rows| == |old(table.rows)|
    ensures forall k :: 0 <= k < |table.rows| ==>
              if Terminal(old(table.rows)[k].status) then table.rows[k] == old(table.rows)[k]
              else table.rows[k].status == Canceled && table.rows[k].completedAt == Some(now)
    ensures scheduler.actions == CallBacks(Actionable(SweepRows(old(table.rows))))
    ensures polls == StaleCount(old(table.rows)) / limit + 1
  {
    ghost var rows := table.rows;
    var requested := StartupSweep(table);
    scheduler := new CliScheduler(table, raises);
    polls := scheduler.Drain(limit, now);
    SweptRowsEndCanceled(rows, now);
    SweptActionable(rows, 0);
  }

  /** What the sweep makes of a row. */
  lemma SweptRowAsks(rows: seq<Row>, k: nat)
    requires k < |rows|
    ensures var swept := SweepRows(rows);
            && (if Terminal(rows[k].status) then swept[k] == rows[k] else swept[k].status == CancelRequested)
            && (k in Actionable(swept) <==> !Terminal(rows[k].status))
  {
    SweepRequestsCancel(rows[k]);
    assert k in Actionable(SweepRows(rows)) <==> IsActionable(SweepRows(rows)[k]);
  }

  lemma SweptRowEndsCanceled(rows: seq<Row>, k: nat, now: int)
    requires k < |rows|
    ensures var final := PollRows(SweepRows(rows), Actionable(SweepRows(rows)), {}, now)[k];
            if Terminal(rows[k].status) then final == rows[k] else final.status == Canceled && final.completedAt == Some(now)
  {
    SweptRowAsks(rows, k);
    FirstAllowedIsAllowed(CancelRequested, [Canceled]);
  }

  /** What sweep and drain together make of all rows. */
  lemma SweptRowsEndCanceled(rows: seq<Row>, now: int)
    ensures var swept := SweepRows(rows);
            var final := PollRows(swept, Actionable(swept), {}, now);
            && (forall k :: 0 <= k < |rows| ==>
                  if Terminal(rows[k].status) then final[k] == rows[k]
                  else final[k].status == Canceled && final[k].completedAt == Some(now))
            && Actions(swept, Actionable(swept), {}) == CallBacks(Actionable(swept))
  {
    var swept := SweepRows(rows);
    forall k | 0 <= k < |rows|
      ensures var final := PollRows(swept, Actionable(swept), {}, now)[k];
              if Terminal(rows[k].status) then final == rows[k] else final.status == Canceled && final.completedAt == Some(now)
    {
      SweptRowEndsCanceled(rows, k, now);
    }
    SweptOnlyCallBack(rows);
  }

  lemma SweptOnlyCallBack(rows: seq<Row>)
    ensures Actions(SweepRows(rows), Actionable(SweepRows(rows)), {}) == CallBacks(Actionable(SweepRows(rows)))
  {
    var swept := SweepRows(rows);
    forall i | 0 <= i < |Actionable(swept)| ensures swept[Actionable(swept)[i]].status == CancelRequested {
      SweptRowAsks(rows, Actionable(swept)[i]);
    }
    OnlyCallbacks(swept, Actionable(swept));
  }

  lemma {:induction false} SweptActionable(rows: seq<Row>, from: nat)
    requires from <= |rows|
    ensures |ActionableFrom(SweepRows(rows), from, {})| == StaleCount(rows[from..])
    decreases |rows| - from
  {
    if from < |rows| {
      SweptActionable(rows, from + 1);
      SweepRequestsCancel(rows[from]);
      assert rows[from..][1..] == rows[from + 1..];
    }
  }
}
