/** The body of a job's subprocess, with whatever others do to the row while the handler runs. */
module ExecJob {
  import opened Wrappers
  import opened JobExecutions
  import opened JobRegistry

  /** How a handler ends: it returns, or it raises an exception with a message. */
  type Outcome = Option<string>

  /** Clock readings of the two guarded UPDATEs. */
  datatype Clock = Clock(begin: int, end: int)

  /** The UPDATE that follows the handler. */
  function Settle(row: Row, outcome: Outcome, now: int): (Row, bool) {
    match outcome
    case None => MarkCompleted(row, now)
    case Some(message) => MarkInterrupted(row, now, message)
  }

  /** The handler runs only for a known kind and a row that is still claimed. */
  predicate Runs(row: Row) { row.jobKey in JOB_DISPATCH && row.status == Claimed }

  /** The row after the subprocess, if others turn it from the first into the second row while the handler runs. */
  function Final(row: Row, meanwhile: Row -> Row, outcome: Outcome, clock: Clock): (Row, bool) {
    if row.jobKey !in JOB_DISPATCH then (MarkInterrupted(row, clock.begin, UNKNOWN_KEY).0, false)
    else if !MarkRunning(row, clock.begin).1 then (row, false)
    else Settle(meanwhile(MarkRunning(row, clock.begin).0), outcome, clock.end)
  }

  /**
   The whole lifecycle. The handler runs at most once and only from CLAIMED; callbacks are
   attempted exactly when this process's own UPDATE settled the row, and on the row as settled.
   */
  method Run(table: JobTable, id: nat, meanwhile: Row -> Row, outcome: Outcome, raises: Callback -> bool, clock: Clock)
    returns (handled: bool, attempted: seq<Callback>, submitted: seq<Row>)
    requires id < |table.rows| && forall row :: meanwhile(row).jobKey == row.jobKey
    modifies table
    ensures handled == Runs(old(table.rows)[id])
    ensures var (row, settled) := Final(old(table.rows)[id], meanwhile, outcome, clock);
            && table.rows == old(table.rows)[id := row]
            && attempted == (if settled then FinalCallbacks(row.jobKey) else [])
            && submitted == if settled && FollowsUp(row) && !raises(EnqueueScoreUpdate) then [NewRow(SCORE_UPDATE)] else []
  {
    handled, attempted, submitted := false, [], [];
    var jobExec := new JobExecution(table, id);
    OnlyClaimedRuns(table.rows[id], clock.begin);
    if jobExec.copy.jobKey !in JOB_DISPATCH {
      var _ := jobExec.Update([Error, Canceled], Values(None, Some(clock.begin), Some(UNKNOWN_KEY)));
      return;
    }
    var running := jobExec.Update([Running], Values(Some(clock.begin), None, None));
    if !running {
      return;
    }
    handled := true;
    table.rows := table.rows[id := meanwhile(table.rows[id])];
    jobExec := new JobExecution(table, id);
    var transitioned;
    match outcome {
      case None => transitioned := jobExec.Update([Completed], Values(None, Some(clock.end), None));
      case Some(message) => transitioned := jobExec.Update([Error, Canceled], Values(None, Some(clock.end), Some(message)));
    }
    if transitioned {
      var failed: set<Callback>;
      attempted, failed, submitted := RunFinalCallbacks(jobExec.copy, raises);
    }
  }

  lemma OnlyClaimedRuns(row: Row, now: int)
    ensures MarkRunning(row, now).1 <==> row.status == Claimed
    ensures row.status == Claimed ==> MarkRunning(row, now).0 == row.(status := Running, startedAt := Some(now))
  {
    FirstAllowedIsAllowed(row.status, [Running]);
    assert Running in [Running];
  }

  lemma SettleFrom(row: Row, outcome: Outcome, now: int)
    ensures row.status == Running ==>
              Settle(row, outcome, now).1 && Settle(row, outcome, now).0.status == if outcome.None? then Completed else Error
    ensures row.status == CancelRequested ==>
              if outcome.None? then Settle(row, outcome, now) == (row, false)
              else Settle(row, outcome, now).1 && Settle(row, outcome, now).0.status == Canceled
    ensures Terminal(row.status) ==> Settle(row, outcome, now) == (row, false)
  {
    FirstAllowedIsAllowed(row.status, [Completed]);
    FirstAllowedIsAllowed(row.status, [Error, Canceled]);
    assert Completed in [Completed] && Error in [Error, Canceled] && Canceled in [Error, Canceled];
    assert [Error, Canceled][1..] == [Canceled];
  }

  function Undisturbed(): Row -> Row { (row: Row) => row }

  function CancelMeanwhile(): Row -> Row { (row: Row) => RequestCancel(row).0 }

  /** Left alone, a run ends COMPLETED or ERROR and settles the row itself, so that callbacks follow. */
  lemma UndisturbedRunSettles(row: Row, outcome: Outcome, clock: Clock)
    requires Runs(row)
    ensures var (after, settled) := Final(row, Undisturbed(), outcome, clock);
            settled && after.status == (if outcome.None? then Completed else Error)
            && after.startedAt == Some(clock.begin) && after.completedAt == Some(clock.end)
            && after.errorMessage == (if outcome.None? then row.errorMessage else outcome)
  {
    OnlyClaimedRuns(row, clock.begin);
    SettleFrom(MarkRunning(row, clock.begin).0, outcome, clock.end);
  }

  /**
   A job that cannot be run: of an unknown kind it is failed if it can still be, without
   callbacks; of a known kind that is no longer claimed it is left as it is.
   */
  lemma UnrunnableJob(row: Row, meanwhile: Row -> Row, outcome: Outcome, clock: Clock)
    requires row.jobKey !in JOB_DISPATCH || row.status != Claimed
    ensures var (after, settled) := Final(row, meanwhile, outcome, clock);
            && !settled
            && after ==
               if row.jobKey in JOB_DISPATCH || Terminal(row.status) || row.status == Pending then row
               else row.(status := if row.status == CancelRequested then Canceled else Error,
                         completedAt := Some(clock.begin), errorMessage := Some(UNKNOWN_KEY))
  {
    OnlyClaimedRuns(row, clock.begin);
    FirstAllowedIsAllowed(row.status, [Error, Canceled]);
    assert [Error, Canceled][0] == Error && [Error, Canceled][1..] == [Canceled];
  }

  /**
   Canceled while the handler runs: a handler that returns anyway leaves the request standing
   for the scheduler, without callbacks; one that raises makes the row CANCELED, not ERROR.
   */
  lemma CancelWhileRunning(row: Row, outcome: Outcome, clock: Clock)
    requires Runs(row)
    ensures var (after, settled) := Final(row, CancelMeanwhile(), outcome, clock);
            && settled == outcome.Some?
            && after.status == (if outcome.None? then CancelRequested else Canceled)
            && after.errorMessage == (if outcome.None? then row.errorMessage else outcome)
  {
    OnlyClaimedRuns(row, clock.begin);
    var running := MarkRunning(row, clock.begin).0;
    FirstAllowedIsAllowed(Running, [CancelRequested]);
    assert CancelRequested in [CancelRequested];
    SettleFrom(RequestCancel(running).0, outcome, clock.end);
  }
}
