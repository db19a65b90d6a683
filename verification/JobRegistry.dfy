/** Which handlers exist and which callbacks follow a job that has settled. */
module JobRegistry {
  import opened Wrappers
  import opened JobExecutions

  const SCORE_UPDATE := "run-score-update"
  const JOB_DISPATCH: set<string> :=
    {"run-profile", "run-tests", "run-monitors", "run-test-generation", SCORE_UPDATE, "recalculate-project-scores"}

  const UNKNOWN_KEY := "Unknown job key"

  datatype Callback = NotifyProfilingRun | NotifyTestRun | NotifyMonitorRun | EnqueueScoreUpdate

  function FinalCallbacks(jobKey: string): seq<Callback> {
    if jobKey == "run-profile" then [NotifyProfilingRun, EnqueueScoreUpdate]
    else if jobKey == "run-tests" then [NotifyTestRun, EnqueueScoreUpdate]
    else if jobKey == "run-monitors" then [NotifyMonitorRun]
    else []
  }

  /** Whether a settled job asks for a score update. */
  predicate FollowsUp(row: Row) {
    row.status == Completed && EnqueueScoreUpdate in FinalCallbacks(row.jobKey)
  }

  /**
   Every run of profiling, tests or monitors is notified of once, first and in its own way; a
   score update is asked for after profiling and tests only, and none by a score update itself.
   */
  lemma ScoredKinds(jobKey: string)
    ensures EnqueueScoreUpdate in FinalCallbacks(jobKey) <==> jobKey in {"run-profile", "run-tests"}
    ensures NotifyProfilingRun in FinalCallbacks(jobKey) <==> jobKey == "run-profile"
    ensures NotifyTestRun in FinalCallbacks(jobKey) <==> jobKey == "run-tests"
    ensures NotifyMonitorRun in FinalCallbacks(jobKey) <==> jobKey == "run-monitors"
    ensures FinalCallbacks(jobKey) != [] ==> jobKey in JOB_DISPATCH && FinalCallbacks(jobKey)[0] != EnqueueScoreUpdate
    ensures forall i, j :: 0 <= i < j < |FinalCallbacks(jobKey)| ==> FinalCallbacks(jobKey)[i] != FinalCallbacks(jobKey)[j]
  {
  }

  /** A callback fails if its work raises; the score update has no work to do unless the run completed. */
  predicate Fails(callback: Callback, row: Row, raises: Callback -> bool) {
    raises(callback) && (callback == EnqueueScoreUpdate ==> row.status == Completed)
  }

  /** One callback: the rows it submits, or the exception it lets out. */
  method Invoke(callback: Callback, row: Row, raises: Callback -> bool) returns (r: Result<seq<Row>, Callback>)
    ensures r == if Fails(callback, row, raises) then Failure(callback)
                 else Success(if callback == EnqueueScoreUpdate && row.status == Completed then [NewRow(SCORE_UPDATE)] else [])
  {
    if callback == EnqueueScoreUpdate {
      if row.status != Completed {
        return Success([]);
      }
      if raises(callback) {
        return Failure(callback);
      }
      return Success([NewRow(SCORE_UPDATE)]);
    }
    r := if raises(callback) then Failure(callback) else Success([]);
  }

  /**
   Every callback is attempted once and in order, and one that raises stops none of the
   others: a score update is submitted exactly when the job completed, its kind asks for one
   and that one callback does not raise.
   */
  method RunFinalCallbacks(row: Row, raises: Callback -> bool)
    returns (attempted: seq<Callback>, failed: set<Callback>, submitted: seq<Row>)
    ensures attempted == FinalCallbacks(row.jobKey)
    ensures failed == set callback | callback in FinalCallbacks(row.jobKey) && Fails(callback, row, raises)
    ensures submitted == if FollowsUp(row) && !raises(EnqueueScoreUpdate) then [NewRow(SCORE_UPDATE)] else []
  {
    var callbacks := FinalCallbacks(row.jobKey);
    attempted, failed, submitted := [], {}, [];
    for i := 0 to |callbacks|
      invariant attempted == callbacks[..i]
      invariant failed == set callback | callback in callbacks[..i] && Fails(callback, row, raises)
      invariant submitted == if row.status == Completed && EnqueueScoreUpdate in callbacks[..i] && !raises(EnqueueScoreUpdate)
                             then [NewRow(SCORE_UPDATE)] else []
    {
      assert callbacks[..i + 1] == callbacks[..i] + [callbacks[i]];
      attempted := attempted + [callbacks[i]];
      var outcome := Invoke(callbacks[i], row, raises);
      match outcome {
        case Success(rows) => submitted := submitted + rows;
        case Failure(callback) => failed := failed + {callback};
      }
    }
  }
}
