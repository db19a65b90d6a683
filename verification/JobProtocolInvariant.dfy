/** The invariant of the job protocol, and that every step of every actor keeps it. */
module JobProtocolInvariant {
  import opened Wrappers
  import opened JobExecutions
  import opened JobRegistry
  import opened JobProtocol

  // ---------- What holds of one job ----------

  predicate Descending(trace: seq<JobStatus>) {
    forall i, j :: 0 <= i < j < |trace| ==> Rank(trace[i]) > Rank(trace[j])
  }

  /** The recorded statuses go down from PENDING to the current one. */
  predicate TraceOk(job: Job) {
    && |job.trace| > 0 && job.trace[0] == Pending && job.trace[|job.trace| - 1] == job.row.status
    && Descending(job.trace)
  }

  predicate RowOk(job: Job) {
    && (job.row.completedAt.Some? <==> Terminal(job.row.status))
    && (job.row.startedAt.Some? <==> job.handlers != [])
    && |job.enteredBy| == (if Terminal(job.row.status) then 1 else 0)
    && |job.handlers| <= 1
    && (job.row.status == Pending ==> job.claim == Unclaimed)
    && (job.claim == Unclaimed ==> job.row.status in {Pending, CancelRequested, Canceled})
    && (job.row.status == Running <==> job.handlers != [] && job.row.status in {Pending, Claimed, Running})
  }

  /** Only the process a job was given to runs its handler or settles it from a subprocess. */
  predicate ActorsOk(job: Job) {
    && (forall a :: a in job.handlers ==> a.Subprocess?)
    && (forall a :: a in job.handlers + job.enteredBy ==> a.Subprocess? ==> job.claim == Spawned(a.proc))
  }

  predicate CallbacksOk(job: Job) {
    && job.callbacks <= FinalCallbacks(job.row.jobKey)
    && (job.callbacks != [] ==> Terminal(job.row.status))
    && (forall a :: a in job.notifiers ==> job.enteredBy == [a])
    && |job.followUps| <= 1
    && (job.followUps != [] ==> job.row.status == Completed && EnqueueScoreUpdate in job.callbacks)
    && (job.parent.Some? ==> job.row.jobKey == SCORE_UPDATE)
  }

  predicate JobOk(job: Job) { TraceOk(job) && RowOk(job) && ActorsOk(job) && CallbacksOk(job) }

  // ---------- What ties jobs, batches, processes and dictionaries together ----------

  /** A follow-up and its parent know each other. */
  predicate FamilyOk(s: State, j: nat)
    requires j < |s.jobs|
  {
    && (forall c :: c in s.jobs[j].followUps ==> c < |s.jobs| && s.jobs[c].parent == Some(j))
    && (s.jobs[j].parent.Some? ==> s.jobs[j].parent.value < j && s.jobs[s.jobs[j].parent.value].followUps == [j])
  }

  predicate InHand(s: State, k: nat, j: nat, task: Task) {
    k < |s.pollers| && (s.pollers[k].crashed || Item(j, task) in s.pollers[k].batch || Item(j, Fail) in s.pollers[k].batch)
  }

  /** A claimed or running job is in the hands of somebody who will move it on. */
  predicate Owned(s: State, j: nat)
    requires j < |s.jobs|
  {
    && (s.jobs[j].claim.Spawned? ==> s.jobs[j].claim.proc < |s.procs| && s.procs[s.jobs[j].claim.proc].job == j)
    && (s.jobs[j].row.status in {Claimed, Running} ==>
      match s.jobs[j].claim
      case Unclaimed => false
      case Queued(k) => InHand(s, k, j, Dispatch)
      case Spawned(p) => (s.procs[p].watch in {Unregistered, Waiting} || InHand(s, s.procs[p].poller, j, StartThread(p))))
  }

  predicate ProcOk(s: State, p: nat)
    requires p < |s.procs|
  {
    var Proc(j, k, pc, watch) := s.procs[p];
    && j < |s.jobs| && k < |s.pollers| && s.jobs[j].claim == Spawned(p)
    && (pc == Starting ==> s.jobs[j].handlers == [])
    && (pc in {Handling, Completing, Interrupting} ==> s.jobs[j].handlers == [Subprocess(p)])
    && (pc == CallingBack ==> s.jobs[j].enteredBy == [Subprocess(p)])
    && (pc == Exited(true) ==> s.jobs[j].row.status !in {Claimed, Running})
    && (s.jobs[j].enteredBy == [Subprocess(p)] ==> pc in {CallingBack, Exited(false)} || CallbacksLeft(s.jobs[j]) == 0)
    && (watch in {Deregistering, Done} ==> s.jobs[j].row.status !in {Claimed, Running})
    && (watch in {Waiting, Deregistering} <==> j in s.pollers[k].running && s.pollers[k].running[j] == p)
  }

  predicate ItemOk(s: State, k: nat, item: Item) {
    && item.job < |s.jobs|
    && match item.task
       case Dispatch => s.jobs[item.job].claim == Queued(k)
       case StartThread(p) => p < |s.procs| && s.procs[p].job == item.job && s.procs[p].poller == k && s.procs[p].watch == NoMonitor
       case Cancel => s.jobs[item.job].row.status in {CancelRequested, Canceled}
       case Finish => s.jobs[item.job].row.status in {CancelRequested, Canceled}
       case Fail => s.jobs[item.job].row.status != Pending
  }

  predicate PollerOk(s: State, k: nat)
    requires k < |s.pollers|
  {
    && (forall i :: 0 <= i < |s.pollers[k].batch| ==> ItemOk(s, k, s.pollers[k].batch[i]))
    && (forall i, j :: 0 <= i < j < |s.pollers[k].batch| ==> s.pollers[k].batch[i].job != s.pollers[k].batch[j].job)
    && (forall j :: j in s.pollers[k].running ==>
          var p := s.pollers[k].running[j];
          p < |s.procs| && s.procs[p].job == j && s.procs[p].poller == k)
    && (s.pollers[k].crashed ==> s.pollers[k].batch == [])
  }

  ghost predicate Inv(s: State) {
    && (forall j :: 0 <= j < |s.jobs| ==> JobOk(s.jobs[j]) && FamilyOk(s, j) && Owned(s, j))
    && (forall p :: 0 <= p < |s.procs| ==> ProcOk(s, p))
    && (forall k :: 0 <= k < |s.pollers| ==> PollerOk(s, k))
  }

  // ---------- Guarded UPDATEs ----------

  /** The row after a successful UPDATE to a status that needs no owner. */
  predicate Settled(row: Row, after: Row) {
    && after.status in ValidTargets(row.status) && after.status !in {Claimed, Running}
    && after == row.(status := after.status, completedAt := after.completedAt, errorMessage := after.errorMessage)
    && (after.completedAt.Some? <==> Terminal(after.status))
  }

  predicate Outcome(row: Row, outcome: (Row, bool)) {
    if outcome.1 then Settled(row, outcome.0) else outcome.0 == row
  }

  lemma OutcomesSettle(row: Row, now: int, message: string)
    requires row.completedAt.Some? <==> Terminal(row.status)
    ensures Outcome(row, MarkCompleted(row, now)) && Outcome(row, MarkCanceled(row, now))
    ensures Outcome(row, MarkInterrupted(row, now, message)) && Outcome(row, RequestCancel(row))
  {
    FirstAllowedIsAllowed(row.status, [Completed]);
    FirstAllowedIsAllowed(row.status, [Canceled]);
    FirstAllowedIsAllowed(row.status, [CancelRequested]);
    FirstAllowedIsAllowed(row.status, [Error, Canceled]);
    assert [Error, Canceled][1..] == [Canceled];
  }

  lemma MarkKeepsTrace(job: Job, actor: Actor, outcome: (Row, bool))
    requires TraceOk(job) && Outcome(job.row, outcome)
    ensures TraceOk(Mark(job, actor, outcome))
  {
  }

  lemma MarkKeepsJobOk(job: Job, actor: Actor, outcome: (Row, bool))
    requires JobOk(job) && Outcome(job.row, outcome)
    requires actor.Subprocess? ==> job.claim == Spawned(actor.proc)
    ensures JobOk(Mark(job, actor, outcome))
  {
    MarkKeepsTrace(job, actor, outcome);
    var after := Mark(job, actor, outcome);
    assert after.handlers == job.handlers && after.claim == job.claim;
    assert ActorsOk(after) by {
      forall a | a in after.handlers + after.enteredBy ensures a.Subprocess? ==> after.claim == Spawned(a.proc) {
        assert a in job.handlers + job.enteredBy || a == actor;
      }
    }
    assert RowOk(after);
    assert CallbacksOk(after);
  }

  /** An update of a job that takes nothing away from those who rely on it. */
  predicate Frame(job: Job, after: Job) {
    && after.claim == job.claim && after.followUps == job.followUps && after.parent == job.parent
    && after.row.jobKey == job.row.jobKey
    && (after.row.status in {Claimed, Running} ==> job.row.status in {Claimed, Running})
    && (after.row.status == Pending ==> job.row.status == Pending)
    && (job.row.status in {CancelRequested, Canceled} ==> after.row.status in {CancelRequested, Canceled})
  }

  lemma MarkFrame(job: Job, actor: Actor, outcome: (Row, bool))
    requires JobOk(job) && Outcome(job.row, outcome)
    ensures Frame(job, Mark(job, actor, outcome))
  {
  }

  /** t differs from s in one job and in where the processes of that job stand. */
  predicate OneJobUpdate(s: State, t: State, j: nat) {
    && j < |s.jobs| == |t.jobs| && t.jobs == s.jobs[j := t.jobs[j]] && t.pollers == s.pollers && |t.procs| == |s.procs|
    && forall p :: 0 <= p < |s.procs| ==>
         t.procs[p] == if s.procs[p].job == j then s.procs[p].(pc := t.procs[p].pc) else s.procs[p]
  }

  lemma UpdateKeepsFamily(s: State, t: State, j: nat, i: nat)
    requires OneJobUpdate(s, t, j) && Frame(s.jobs[j], t.jobs[j]) && i < |s.jobs| && FamilyOk(s, i)
    ensures FamilyOk(t, i)
  {
    assert forall k :: 0 <= k < |s.jobs| ==> t.jobs[k].parent == s.jobs[k].parent && t.jobs[k].followUps == s.jobs[k].followUps;
  }

  lemma UpdateKeepsOwner(s: State, t: State, j: nat, i: nat)
    requires OneJobUpdate(s, t, j) && Frame(s.jobs[j], t.jobs[j]) && i < |s.jobs| && Owned(s, i)
    ensures Owned(t, i)
  {
    assert t.jobs[i].claim == s.jobs[i].claim;
    assert t.jobs[i].row.status in {Claimed, Running} ==> s.jobs[i].row.status in {Claimed, Running};
    assert forall p :: 0 <= p < |s.procs| ==>
      t.procs[p].job == s.procs[p].job && t.procs[p].poller == s.procs[p].poller && t.procs[p].watch == s.procs[p].watch;
  }

  lemma UpdateKeepsJobs(s: State, t: State, j: nat)
    requires Inv(s) && OneJobUpdate(s, t, j) && JobOk(t.jobs[j]) && Frame(s.jobs[j], t.jobs[j])
    ensures forall i :: 0 <= i < |t.jobs| ==> JobOk(t.jobs[i]) && FamilyOk(t, i) && Owned(t, i)
  {
    forall i | 0 <= i < |t.jobs| ensures JobOk(t.jobs[i]) && FamilyOk(t, i) && Owned(t, i) {
      assert JobOk(s.jobs[i]) && FamilyOk(s, i) && Owned(s, i);
      UpdateKeepsFamily(s, t, j, i);
      UpdateKeepsOwner(s, t, j, i);
    }
  }

  lemma UpdateKeepsPollers(s: State, t: State, j: nat)
    requires Inv(s) && OneJobUpdate(s, t, j) && Frame(s.jobs[j], t.jobs[j])
    ensures forall k :: 0 <= k < |t.pollers| ==> PollerOk(t, k)
  {
    forall k | 0 <= k < |t.pollers| ensures PollerOk(t, k) {
      assert PollerOk(s, k);
      forall i | 0 <= i < |t.pollers[k].batch| ensures ItemOk(t, k, t.pollers[k].batch[i]) {
        assert ItemOk(s, k, s.pollers[k].batch[i]);
      }
    }
  }

  lemma UpdateKeeps(s: State, t: State, j: nat)
    requires Inv(s) && OneJobUpdate(s, t, j) && JobOk(t.jobs[j]) && Frame(s.jobs[j], t.jobs[j])
    requires forall p :: 0 <= p < |t.procs| && s.procs[p].job == j ==> ProcOk(t, p)
    ensures Inv(t)
  {
    UpdateKeepsJobs(s, t, j);
    UpdateKeepsPollers(s, t, j);
    forall p | 0 <= p < |t.procs| ensures ProcOk(t, p) {
      assert ProcOk(s, p);
    }
  }

  /** A guarded UPDATE by a poller, a monitor or the API keeps the invariant. */
  lemma MarkKeeps(s: State, j: nat, actor: Actor, outcome: (Row, bool))
    requires Inv(s) && j < |s.jobs| && Outcome(s.jobs[j].row, outcome) && !actor.Subprocess?
    ensures Inv(SetJob(s, j, Mark(s.jobs[j], actor, outcome)))
  {
    var t := SetJob(s, j, Mark(s.jobs[j], actor, outcome));
    assert JobOk(s.jobs[j]);
    MarkKeepsJobOk(s.jobs[j], actor, outcome);
    MarkFrame(s.jobs[j], actor, outcome);
    forall p | 0 <= p < |t.procs| && s.procs[p].job == j ensures ProcOk(t, p) {
      assert ProcOk(s, p);
      assert t.jobs[j].enteredBy == s.jobs[j].enteredBy || t.jobs[j].enteredBy[0] == actor;
    }
    UpdateKeeps(s, t, j);
  }

  // ---------- Steps of a subprocess ----------

  /** The one process of a job writes to it and moves on. */
  lemma ProcessKeeps(s: State, p: nat, job: Job, pc: Pc)
    requires Inv(s) && p < |s.procs| && s.procs[p].job < |s.jobs|
    requires JobOk(job) && Frame(s.jobs[s.procs[p].job], job)
    requires ProcOk(SetPc(SetJob(s, s.procs[p].job, job), p, pc), p)
    ensures Inv(SetPc(SetJob(s, s.procs[p].job, job), p, pc))
  {
    var j := s.procs[p].job;
    var t := SetPc(SetJob(s, j, job), p, pc);
    forall q | 0 <= q < |t.procs| && s.procs[q].job == j ensures ProcOk(t, q) {
      assert ProcOk(s, p) && ProcOk(s, q);
    }
    UpdateKeeps(s, t, j);
  }

  lemma SetPcKeeps(s: State, p: nat, pc: Pc)
    requires Inv(s) && p < |s.procs| && ProcOk(SetPc(s, p, pc), p)
    ensures Inv(SetPc(s, p, pc))
  {
    var j := s.procs[p].job;
    assert JobOk(s.jobs[j]);
    assert SetJob(s, j, s.jobs[j]) == s;
    ProcessKeeps(s, p, s.jobs[j], pc);
  }

  /** Only a claimed row starts to run, and it had no handler. */
  lemma RunningJobOk(job: Job, p: nat, now: int)
    requires JobOk(job) && job.handlers == [] && job.claim == Spawned(p)
    ensures MarkRunning(job.row, now).1 ==>
              && job.row.status == Claimed
              && JobOk(Mark(job, Subprocess(p), MarkRunning(job.row, now)).(handlers := job.handlers + [Subprocess(p)]))
              && MarkRunning(job.row, now).0 == job.row.(status := Running, startedAt := Some(now))
    ensures !MarkRunning(job.row, now).1 ==> job.row.status !in {Claimed, Running}
  {
    FirstAllowedIsAllowed(job.row.status, [Running]);
    assert Running in [Running];
  }

  /** After an attempt to interrupt, nothing is claimed or running. */
  lemma InterruptedSettles(job: Job, now: int, message: string)
    requires JobOk(job) && job.row.status != Pending
    ensures MarkInterrupted(job.row, now, message).0.status !in {Pending, Claimed, Running}
    ensures MarkInterrupted(job.row, now, message).1 ==> MarkInterrupted(job.row, now, message).0.status in {Error, Canceled}
  {
    FirstAllowedIsAllowed(job.row.status, [Error, Canceled]);
    assert Error in [Error, Canceled] && Canceled in [Error, Canceled];
  }

  lemma CompletedSettles(job: Job, now: int)
    requires JobOk(job) && job.row.status !in {Pending, Claimed}
    ensures MarkCompleted(job.row, now).0.status !in {Pending, Claimed, Running}
    ensures MarkCompleted(job.row, now).1 ==> MarkCompleted(job.row, now).0.status == Completed
  {
    FirstAllowedIsAllowed(job.row.status, [Completed]);
    assert Completed in [Completed];
  }

  /** A process of an unknown kind writes its row off. */
  lemma UnknownKindKeeps(s: State, p: nat, e: Event)
    requires Inv(s) && At(s, p, Starting) && s.jobs[s.procs[p].job].row.jobKey !in JOB_DISPATCH
    ensures Inv(BeginStep(s, p, e))
  {
    var job := s.jobs[s.procs[p].job];
    var outcome := MarkInterrupted(job.row, e.now, e.message);
    assert ProcOk(s, p) && JobOk(job);
    OutcomesSettle(job.row, e.now, e.message);
    InterruptedSettles(job, e.now, e.message);
    MarkKeepsJobOk(job, Subprocess(p), outcome);
    MarkFrame(job, Subprocess(p), outcome);
    ProcessKeeps(s, p, Mark(job, Subprocess(p), outcome), Exited(true));
  }

  lemma StartedHandlerKeeps(s: State, p: nat, e: Event)
    requires Inv(s) && At(s, p, Starting) && s.jobs[s.procs[p].job].row.jobKey in JOB_DISPATCH
    requires MarkRunning(s.jobs[s.procs[p].job].row, e.now).1
    ensures Inv(BeginStep(s, p, e))
  {
    var job := s.jobs[s.procs[p].job];
    assert ProcOk(s, p) && JobOk(job);
    RunningJobOk(job, p, e.now);
    ProcessKeeps(s, p, Mark(job, Subprocess(p), MarkRunning(job.row, e.now)).(handlers := job.handlers + [Subprocess(p)]), Handling);
  }

  lemma SkippedHandlerKeeps(s: State, p: nat, e: Event)
    requires Inv(s) && At(s, p, Starting) && !MarkRunning(s.jobs[s.procs[p].job].row, e.now).1
    ensures Inv(SetPc(s, p, Exited(true)))
  {
    var job := s.jobs[s.procs[p].job];
    assert ProcOk(s, p) && JobOk(job);
    RunningJobOk(job, p, e.now);
    SetPcKeeps(s, p, Exited(true));
  }

  lemma BeginKeeps(s: State, p: nat, e: Event)
    requires Inv(s) && At(s, p, Starting)
    ensures Inv(BeginStep(s, p, e))
  {
    if s.jobs[s.procs[p].job].row.jobKey !in JOB_DISPATCH {
      UnknownKindKeeps(s, p, e);
    } else if MarkRunning(s.jobs[s.procs[p].job].row, e.now).1 {
      StartedHandlerKeeps(s, p, e);
    } else {
      SkippedHandlerKeeps(s, p, e);
    }
  }

  lemma SettleKeeps(s: State, p: nat, outcome: (Row, bool))
    requires Inv(s) && p < |s.procs| && s.procs[p].pc in {Completing, Interrupting}
    requires s.procs[p].job < |s.jobs| && Outcome(s.jobs[s.procs[p].job].row, outcome)
    requires outcome.0.status !in {Pending, Claimed, Running} && (outcome.1 ==> Terminal(outcome.0.status))
    ensures Inv(SettleStep(s, p, outcome))
  {
    var j := s.procs[p].job;
    var job := s.jobs[j];
    assert ProcOk(s, p) && JobOk(job);
    MarkKeepsJobOk(job, Subprocess(p), outcome);
    MarkFrame(job, Subprocess(p), outcome);
    ProcessKeeps(s, p, Mark(job, Subprocess(p), outcome), if outcome.1 then CallingBack else Exited(true));
  }

  // ---------- New jobs and callbacks ----------

  lemma SubmitKeeps(s: State, jobKey: string)
    requires Inv(s)
    ensures Inv(s.(jobs := s.jobs + [NewJob(jobKey, None)]))
  {
    var t := s.(jobs := s.jobs + [NewJob(jobKey, None)]);
    forall i | 0 <= i < |t.jobs| ensures JobOk(t.jobs[i]) && FamilyOk(t, i) && Owned(t, i) {
      if i < |s.jobs| { assert JobOk(s.jobs[i]) && FamilyOk(s, i) && Owned(s, i); }
    }
    GrowKeepsRest(s, t);
  }

  /** Processes and batches do not notice a new job or a job's bookkeeping of callbacks. */
  lemma GrowKeepsRest(s: State, t: State)
    requires Inv(s) && t.pollers == s.pollers && t.procs == s.procs && |t.jobs| >= |s.jobs|
    requires forall i :: 0 <= i < |s.jobs| ==>
               && t.jobs[i].row == s.jobs[i].row && t.jobs[i].claim == s.jobs[i].claim
               && t.jobs[i].handlers == s.jobs[i].handlers && t.jobs[i].enteredBy == s.jobs[i].enteredBy
               && |t.jobs[i].callbacks| >= |s.jobs[i].callbacks|
    ensures forall p :: 0 <= p < |t.procs| ==> ProcOk(t, p)
    ensures forall k :: 0 <= k < |t.pollers| ==> PollerOk(t, k)
  {
    forall p | 0 <= p < |t.procs| ensures ProcOk(t, p) {
      assert ProcOk(s, p);
      var i := s.procs[p].job;
      assert t.jobs[i].row == s.jobs[i].row && t.jobs[i].claim == s.jobs[i].claim;
    }
    forall k | 0 <= k < |t.pollers| ensures PollerOk(t, k) {
      assert PollerOk(s, k);
      forall i | 0 <= i < |t.pollers[k].batch| ensures ItemOk(t, k, t.pollers[k].batch[i]) {
        assert ItemOk(s, k, s.pollers[k].batch[i]);
      }
    }
  }

  /** A callback list names the score update last, if at all. */
  lemma CallNextJobOk(s: State, j: nat, actor: Actor, submits: bool)
    requires j < |s.jobs| && JobOk(s.jobs[j]) && CallbacksLeft(s.jobs[j]) > 0
    requires s.jobs[j].enteredBy == [actor]
    ensures JobOk(CallNext(s, j, actor, submits).jobs[j])
    ensures FinalCallbacks(s.jobs[j].row.jobKey)[|s.jobs[j].callbacks|] == EnqueueScoreUpdate ==>
              s.jobs[j].followUps == [] && s.jobs[j].parent == None
  {
    var job := s.jobs[j];
    var all := FinalCallbacks(job.row.jobKey);
    assert job.callbacks == all[..|job.callbacks|];
    assert all[..|job.callbacks| + 1] == job.callbacks + [all[|job.callbacks|]];
    assert |all| <= 2 && (|all| == 2 ==> all[0] != all[1]);
  }

  /** A job without a follow-up gains one: nobody else is concerned. */
  lemma FollowUpFamily(s: State, t: State, j: nat, i: nat)
    requires j < |s.jobs| && s.jobs[j].followUps == [] && |t.jobs| == |s.jobs| + 1 && i < |t.jobs|
    requires i < |s.jobs| ==> FamilyOk(s, i)
    requires forall k :: 0 <= k < |s.jobs| ==> t.jobs[k].parent == s.jobs[k].parent
    requires forall k :: 0 <= k < |s.jobs| && k != j ==> t.jobs[k].followUps == s.jobs[k].followUps
    requires t.jobs[j].followUps == [|s.jobs|] && t.jobs[|s.jobs|] == NewJob(SCORE_UPDATE, Some(j))
    ensures FamilyOk(t, i)
  {
  }

  lemma CallNextFamily(s: State, j: nat, actor: Actor, submits: bool, i: nat)
    requires Inv(s) && j < |s.jobs| && CallbacksLeft(s.jobs[j]) > 0 && s.jobs[j].enteredBy == [actor]
    requires i < |CallNext(s, j, actor, submits).jobs|
    ensures FamilyOk(CallNext(s, j, actor, submits), i)
  {
    var t := CallNext(s, j, actor, submits);
    assert JobOk(s.jobs[j]);
    CallNextJobOk(s, j, actor, submits);
    if |t.jobs| > |s.jobs| {
      assert i < |s.jobs| ==> FamilyOk(s, i);
      FollowUpFamily(s, t, j, i);
    } else {
      assert forall k :: 0 <= k < |s.jobs| ==> t.jobs[k].parent == s.jobs[k].parent && t.jobs[k].followUps == s.jobs[k].followUps;
      assert FamilyOk(s, i);
    }
  }

  lemma CallNextOwned(s: State, j: nat, actor: Actor, submits: bool, i: nat)
    requires Inv(s) && j < |s.jobs| && CallbacksLeft(s.jobs[j]) > 0 && s.jobs[j].enteredBy == [actor]
    requires i < |CallNext(s, j, actor, submits).jobs|
    ensures var t := CallNext(s, j, actor, submits); JobOk(t.jobs[i]) && Owned(t, i)
  {
    assert JobOk(s.jobs[j]);
    CallNextJobOk(s, j, actor, submits);
    if i < |s.jobs| {
      assert JobOk(s.jobs[i]) && Owned(s, i);
    }
  }

  lemma CallNextKeeps(s: State, j: nat, actor: Actor, submits: bool)
    requires Inv(s) && j < |s.jobs| && CallbacksLeft(s.jobs[j]) > 0 && s.jobs[j].enteredBy == [actor]
    ensures Inv(CallNext(s, j, actor, submits))
  {
    var t := CallNext(s, j, actor, submits);
    assert JobOk(s.jobs[j]);
    CallNextJobOk(s, j, actor, submits);
    forall i | 0 <= i < |t.jobs| ensures JobOk(t.jobs[i]) && FamilyOk(t, i) && Owned(t, i) {
      CallNextFamily(s, j, actor, submits, i);
      CallNextOwned(s, j, actor, submits, i);
    }
    GrowKeepsRest(s, t);
  }

  lemma {:induction false} CallAllKeeps(s: State, j: nat, actor: Actor)
    requires Inv(s) && j < |s.jobs| && s.jobs[j].enteredBy == [actor]
    ensures Inv(CallAll(s, j, actor)) && CallAll(s, j, actor).jobs[j].row == s.jobs[j].row
    decreases CallbacksLeft(s.jobs[j])
  {
    if CallbacksLeft(s.jobs[j]) > 0 {
      CallNextKeeps(s, j, actor, true);
      CallAllKeeps(CallNext(s, j, actor, true), j, actor);
    }
  }

  lemma FinalizeKeeps(s: State, j: nat, actor: Actor, outcome: (Row, bool))
    requires Inv(s) && j < |s.jobs| && Outcome(s.jobs[j].row, outcome) && !actor.Subprocess?
    requires outcome.1 ==> Terminal(outcome.0.status)
    ensures Inv(Finalize(s, j, actor, outcome))
    ensures |Finalize(s, j, actor, outcome).jobs| > j && Finalize(s, j, actor, outcome).jobs[j].row == outcome.0
  {
    MarkKeeps(s, j, actor, outcome);
    assert JobOk(s.jobs[j]);
    if outcome.1 {
      CallAllKeeps(SetJob(s, j, Mark(s.jobs[j], actor, outcome)), j, actor);
    }
  }

  // ---------- Steps of a scheduler ----------

  /** A change to a batch alone matters only to the jobs in it. */
  lemma BatchKeeps(s: State, k: nat, batch: seq<Item>)
    requires Inv(s) && k < |s.pollers| && !s.pollers[k].crashed
    requires forall i :: 0 <= i < |batch| ==> ItemOk(s, k, batch[i])
    requires forall i, j :: 0 <= i < j < |batch| ==> batch[i].job != batch[j].job
    requires forall item :: item in s.pollers[k].batch && item !in batch && item.job < |s.jobs| ==>
               s.jobs[item.job].row.status !in {Claimed, Running} || Item(item.job, Fail) in batch
    ensures Inv(SetBatch(s, k, batch))
  {
    var t := SetBatch(s, k, batch);
    forall i | 0 <= i < |t.jobs| ensures JobOk(t.jobs[i]) && FamilyOk(t, i) && Owned(t, i) {
      assert JobOk(s.jobs[i]) && FamilyOk(s, i) && Owned(s, i);
      assert forall l, task :: s.jobs[i].row.status in {Claimed, Running} && InHand(s, l, i, task) ==> InHand(t, l, i, task);
    }
    forall p | 0 <= p < |t.procs| ensures ProcOk(t, p) {
      assert ProcOk(s, p);
      assert t.pollers[s.procs[p].poller].running == s.pollers[s.procs[p].poller].running;
    }
    forall l | 0 <= l < |t.pollers| ensures PollerOk(t, l) {
      assert PollerOk(s, l);
      forall i | 0 <= i < |t.pollers[l].batch| ensures ItemOk(t, l, t.pollers[l].batch[i]) {
        assert ItemOk(s, l, t.pollers[l].batch[i]);
      }
    }
  }

  /** Finished with the head of the batch: nobody relies on the poller for that job. */
  lemma PopKeeps(s: State, k: nat)
    requires Inv(s) && k < |s.pollers| && s.pollers[k].batch != []
    requires s.pollers[k].batch[0].job < |s.jobs| ==> s.jobs[s.pollers[k].batch[0].job].row.status !in {Claimed, Running}
    ensures Inv(Pop(s, k))
  {
    var batch := s.pollers[k].batch;
    assert PollerOk(s, k);
    assert batch == [batch[0]] + batch[1..];
    BatchKeeps(s, k, batch[1..]);
  }

  /** The head may always be failed, and a cancellation may go on to its second half. */
  lemma RetaskedItemOk(s: State, k: nat, item: Item, task: Task)
    requires Inv(s) && ItemOk(s, k, item)
    requires task == Fail || (task == Finish && item.task == Cancel)
    ensures ItemOk(s, k, Item(item.job, task))
    ensures s.jobs[item.job].row.status !in {Claimed, Running} || task == Fail
  {
    assert JobOk(s.jobs[item.job]);
    if item.task.StartThread? {
      assert ProcOk(s, item.task.proc);
    }
  }

  lemma RetaskKeeps(s: State, k: nat, task: Task)
    requires Inv(s) && k < |s.pollers| && s.pollers[k].batch != []
    requires task == Fail || (task == Finish && s.pollers[k].batch[0].task == Cancel)
    ensures Inv(Retask(s, k, task))
  {
    var batch := s.pollers[k].batch;
    var after := batch[0 := Item(batch[0].job, task)];
    assert PollerOk(s, k);
    RetaskedItemOk(s, k, batch[0], task);
    forall i | 0 <= i < |after| ensures ItemOk(s, k, after[i]) {
      assert ItemOk(s, k, batch[i]);
    }
    forall item | item in batch && item !in after
      ensures s.jobs[item.job].row.status !in {Claimed, Running} || Item(item.job, Fail) in after
    {
      HeadReplaced(batch, after, item);
    }
    BatchKeeps(s, k, after);
  }

  /** Only the head can have left. */
  lemma HeadReplaced(batch: seq<Item>, after: seq<Item>, item: Item)
    requires 0 < |batch| == |after| && after[1..] == batch[1..]
    requires item in batch && item !in after
    ensures item == batch[0] && after[0] in after
  {
    assert batch == [batch[0]] + batch[1..] && after == [after[0]] + after[1..];
  }

  lemma ClaimedJobOk(job: Job, k: nat, now: int)
    requires JobOk(job) && IsActionable(job.row)
    ensures JobOk(ClaimJob(job, k, now))
  {
    var after := ClaimJob(job, k, now);
    if job.row.status == Pending {
      assert job.handlers == [] && job.callbacks == [];
      assert Descending(after.trace);
    }
  }

  lemma ClaimKeepsJob(s: State, k: nat, ids: seq<nat>, now: int, i: nat)
    requires Inv(s) && CanClaim(s, k, ids) && i < |s.jobs|
    ensures var t := ClaimStep(s, k, ids, now); JobOk(t.jobs[i]) && FamilyOk(t, i) && Owned(t, i)
  {
    var t := ClaimStep(s, k, ids, now);
    assert JobOk(s.jobs[i]) && FamilyOk(s, i) && Owned(s, i);
    if i in ids {
      var n :| 0 <= n < |ids| && ids[n] == i;
      assert t.pollers[k].batch[n] == ClaimItem(s.jobs[i], i);
      ClaimedJobOk(s.jobs[i], k, now);
    }
    assert forall l, task :: l != k && InHand(s, l, i, task) ==> InHand(t, l, i, task);
    assert forall task :: InHand(s, k, i, task) ==> false;
  }

  lemma ClaimKeeps(s: State, k: nat, ids: seq<nat>, now: int)
    requires Inv(s) && CanClaim(s, k, ids)
    ensures Inv(ClaimStep(s, k, ids, now))
  {
    var t := ClaimStep(s, k, ids, now);
    forall i | 0 <= i < |t.jobs| ensures JobOk(t.jobs[i]) && FamilyOk(t, i) && Owned(t, i) {
      ClaimKeepsJob(s, k, ids, now, i);
    }
    forall p | 0 <= p < |t.procs| ensures ProcOk(t, p) {
      assert ProcOk(s, p) && JobOk(s.jobs[s.procs[p].job]);
      assert t.jobs[s.procs[p].job] == s.jobs[s.procs[p].job];
      assert t.pollers[s.procs[p].poller].running == s.pollers[s.procs[p].poller].running;
    }
    forall l | 0 <= l < |t.pollers| ensures PollerOk(t, l) {
      assert PollerOk(s, l);
      forall i | 0 <= i < |t.pollers[l].batch| ensures ItemOk(t, l, t.pollers[l].batch[i]) {
        if l == k {
          assert ids[i] in ids && t.jobs[ids[i]] == ClaimJob(s.jobs[ids[i]], k, now);
        } else {
          assert ItemOk(s, l, s.pollers[l].batch[i]);
          var j := s.pollers[l].batch[i].job;
          assert JobOk(s.jobs[j]) && (s.jobs[j].row.status != Pending ==> t.jobs[j] == s.jobs[j]);
          if s.pollers[l].batch[i].task.StartThread? { assert ProcOk(s, s.pollers[l].batch[i].task.proc); }
        }
      }
    }
  }

  lemma HandledMeansSpawned(job: Job)
    requires ActorsOk(job)
    ensures job.handlers != [] ==> job.claim == Spawned(job.handlers[0].proc)
    ensures forall p :: job.enteredBy == [Subprocess(p)] ==> job.claim == Spawned(p)
  {
    assert job.handlers != [] ==> job.handlers[0] in job.handlers && job.handlers[0] in job.handlers + job.enteredBy;
    assert job.enteredBy != [] ==> job.enteredBy[0] in job.handlers + job.enteredBy;
  }

  /** A row waiting to be dispatched has met no subprocess yet. */
  lemma NewProcessIsFirst(s: State, k: nat)
    requires Inv(s) && HeadIs(s, k, Dispatch)
    ensures ProcOk(SpawnStep(s, k), |s.procs|)
    ensures JobOk(SpawnStep(s, k).jobs[HeadJob(s, k)])
    ensures forall p :: 0 <= p < |s.procs| ==> s.procs[p].job != HeadJob(s, k)
  {
    var job := s.jobs[HeadJob(s, k)];
    assert PollerOk(s, k) && ItemOk(s, k, s.pollers[k].batch[0]) && JobOk(job);
    HandledMeansSpawned(job);
    forall p | 0 <= p < |s.procs| ensures s.procs[p].job != HeadJob(s, k) {
      assert ProcOk(s, p);
    }
  }

  lemma SpawnKeepsPollers(s: State, k: nat)
    requires Inv(s) && HeadIs(s, k, Dispatch)
    ensures forall l :: 0 <= l < |s.pollers| ==> PollerOk(SpawnStep(s, k), l)
  {
    var t := SpawnStep(s, k);
    assert PollerOk(s, k) && ItemOk(s, k, s.pollers[k].batch[0]);
    forall l | 0 <= l < |t.pollers| ensures PollerOk(t, l) {
      assert PollerOk(s, l);
      forall i | 0 <= i < |t.pollers[l].batch| ensures ItemOk(t, l, t.pollers[l].batch[i]) {
        assert ItemOk(s, l, s.pollers[l].batch[i]);
        assert t.pollers[l].batch[i].task == Dispatch ==> t.pollers[l].batch[i].job != HeadJob(s, k);
      }
    }
  }

  lemma SpawnKeepsOwner(s: State, k: nat, i: nat)
    requires Inv(s) && HeadIs(s, k, Dispatch) && i < |s.jobs| && i != HeadJob(s, k)
    ensures Owned(SpawnStep(s, k), i)
  {
    var t := SpawnStep(s, k);
    var batch, after := s.pollers[k].batch, t.pollers[k].batch;
    assert batch == [batch[0]] + batch[1..] && after == [after[0]] + batch[1..];
    assert forall l, task :: InHand(s, l, i, task) ==> InHand(t, l, i, task);
    assert Owned(s, i);
  }

  lemma SpawnedIsOwned(s: State, k: nat)
    requires Inv(s) && HeadIs(s, k, Dispatch)
    ensures Owned(SpawnStep(s, k), HeadJob(s, k))
  {
    assert SpawnStep(s, k).pollers[k].batch[0] == Item(HeadJob(s, k), StartThread(|s.procs|));
  }

  lemma SpawnKeepsJobs(s: State, k: nat)
    requires Inv(s) && HeadIs(s, k, Dispatch)
    ensures var t := SpawnStep(s, k);
            forall i :: 0 <= i < |t.jobs| ==> JobOk(t.jobs[i]) && FamilyOk(t, i) && Owned(t, i)
  {
    var t := SpawnStep(s, k);
    NewProcessIsFirst(s, k);
    forall i | 0 <= i < |t.jobs| ensures JobOk(t.jobs[i]) && FamilyOk(t, i) && Owned(t, i) {
      assert JobOk(s.jobs[i]) && FamilyOk(s, i);
      if i == HeadJob(s, k) { SpawnedIsOwned(s, k); } else { SpawnKeepsOwner(s, k, i); }
    }
  }

  lemma SpawnKeeps(s: State, k: nat)
    requires Inv(s) && HeadIs(s, k, Dispatch)
    ensures Inv(SpawnStep(s, k))
  {
    var t := SpawnStep(s, k);
    NewProcessIsFirst(s, k);
    SpawnKeepsJobs(s, k);
    SpawnKeepsPollers(s, k);
    forall p | 0 <= p < |t.procs| ensures ProcOk(t, p) {
      if p < |s.procs| {
        assert ProcOk(s, p) && t.jobs[s.procs[p].job] == s.jobs[s.procs[p].job];
        assert t.pollers[s.procs[p].poller].running == s.pollers[s.procs[p].poller].running;
      }
    }
  }

  /** The monitor thread starts and the poller is done with the row. */
  function StartMonitorStep(s: State, k: nat): State
    requires k < |s.pollers| && s.pollers[k].batch != [] && s.pollers[k].batch[0].task.StartThread?
    requires s.pollers[k].batch[0].task.proc < |s.procs|
  {
    Pop(SetWatch(s, s.pollers[k].batch[0].task.proc, Unregistered), k)
  }

  lemma StartMonitorKeepsJobs(s: State, k: nat)
    requires Inv(s) && k < |s.pollers| && s.pollers[k].batch != [] && s.pollers[k].batch[0].task.StartThread?
    requires s.pollers[k].batch[0].task.proc < |s.procs|
    ensures var t := StartMonitorStep(s, k);
            forall i :: 0 <= i < |t.jobs| ==> JobOk(t.jobs[i]) && FamilyOk(t, i) && Owned(t, i)
  {
    var t := StartMonitorStep(s, k);
    var batch := s.pollers[k].batch;
    assert PollerOk(s, k) && ItemOk(s, k, batch[0]) && ProcOk(s, batch[0].task.proc);
    assert batch == [batch[0]] + batch[1..];
    forall i | 0 <= i < |t.jobs| ensures JobOk(t.jobs[i]) && FamilyOk(t, i) && Owned(t, i) {
      assert JobOk(s.jobs[i]) && FamilyOk(s, i) && Owned(s, i);
      assert i != batch[0].job ==> forall l, task :: InHand(s, l, i, task) ==> InHand(t, l, i, task);
    }
  }

  lemma StartMonitorKeepsPollers(s: State, k: nat)
    requires Inv(s) && k < |s.pollers| && s.pollers[k].batch != [] && s.pollers[k].batch[0].task.StartThread?
    requires s.pollers[k].batch[0].task.proc < |s.procs|
    ensures var t := StartMonitorStep(s, k); forall l :: 0 <= l < |t.pollers| ==> PollerOk(t, l)
  {
    var t := StartMonitorStep(s, k);
    assert PollerOk(s, k) && ItemOk(s, k, s.pollers[k].batch[0]);
    forall l | 0 <= l < |t.pollers| ensures PollerOk(t, l) {
      assert PollerOk(s, l);
      forall i | 0 <= i < |t.pollers[l].batch| ensures ItemOk(t, l, t.pollers[l].batch[i]) {
        assert ItemOk(s, l, s.pollers[l].batch[if l == k then i + 1 else i]);
      }
    }
  }

  lemma StartMonitorKeeps(s: State, k: nat)
    requires Inv(s) && k < |s.pollers| && s.pollers[k].batch != [] && s.pollers[k].batch[0].task.StartThread?
    ensures s.pollers[k].batch[0].task.proc < |s.procs| && Inv(StartMonitorStep(s, k))
  {
    assert PollerOk(s, k) && ItemOk(s, k, s.pollers[k].batch[0]);
    var t := StartMonitorStep(s, k);
    StartMonitorKeepsJobs(s, k);
    StartMonitorKeepsPollers(s, k);
    forall q | 0 <= q < |t.procs| ensures ProcOk(t, q) {
      assert ProcOk(s, q);
      assert t.pollers[s.procs[q].poller].running == s.pollers[s.procs[q].poller].running;
    }
  }

  lemma CrashKeeps(s: State, k: nat)
    requires Inv(s) && k < |s.pollers|
    ensures Inv(CrashStep(s, k))
  {
    var t := CrashStep(s, k);
    forall i | 0 <= i < |t.jobs| ensures JobOk(t.jobs[i]) && FamilyOk(t, i) && Owned(t, i) {
      assert JobOk(s.jobs[i]) && FamilyOk(s, i) && Owned(s, i);
      assert forall l, task :: InHand(s, l, i, task) ==> InHand(t, l, i, task);
      if s.jobs[i].claim.Spawned? && s.jobs[i].claim.proc < |s.procs| { assert ProcOk(s, s.jobs[i].claim.proc); }
    }
    forall p | 0 <= p < |t.procs| ensures ProcOk(t, p) {
      assert ProcOk(s, p);
    }
    forall l | 0 <= l < |t.pollers| ensures PollerOk(t, l) {
      assert PollerOk(s, l);
      forall i | 0 <= i < |t.pollers[l].batch| ensures ItemOk(t, l, t.pollers[l].batch[i]) {
        assert ItemOk(s, l, s.pollers[l].batch[i]);
      }
    }
  }

  // ---------- Steps of a monitor thread ----------

  /** A monitor moves on, updating the dictionary of its scheduler for its own job only. */
  lemma WatchKeeps(s: State, p: nat, watch: Watch, running: map<nat, nat>)
    requires Inv(s) && p < |s.procs| && s.procs[p].poller < |s.pollers| && s.procs[p].watch != NoMonitor
    requires var t := SetRunning(SetWatch(s, p, watch), s.procs[p].poller, running); ProcOk(t, p) && watch != NoMonitor
    requires watch != Waiting ==> s.procs[p].job < |s.jobs| && s.jobs[s.procs[p].job].row.status !in {Claimed, Running}
    requires forall j :: j != s.procs[p].job ==>
               var was := s.pollers[s.procs[p].poller].running;
               (j in running <==> j in was) && (j in was ==> running[j] == was[j])
    requires s.procs[p].job in running ==> running[s.procs[p].job] == p
    ensures Inv(SetRunning(SetWatch(s, p, watch), s.procs[p].poller, running))
  {
    WatchKeepsJobs(s, p, watch, running);
    WatchKeepsProcs(s, p, watch, running);
    WatchKeepsPollers(s, p, watch, running);
  }

  /** The other processes are of other jobs, so that their entries are untouched. */
  lemma WatchKeepsProcs(s: State, p: nat, watch: Watch, running: map<nat, nat>)
    requires Inv(s) && p < |s.procs| && s.procs[p].poller < |s.pollers|
    requires ProcOk(SetRunning(SetWatch(s, p, watch), s.procs[p].poller, running), p)
    requires forall j :: j != s.procs[p].job ==>
               var was := s.pollers[s.procs[p].poller].running;
               (j in running <==> j in was) && (j in was ==> running[j] == was[j])
    ensures var t := SetRunning(SetWatch(s, p, watch), s.procs[p].poller, running);
            forall q :: 0 <= q < |t.procs| ==> ProcOk(t, q)
  {
    var t := SetRunning(SetWatch(s, p, watch), s.procs[p].poller, running);
    assert ProcOk(s, p);
    forall q | 0 <= q < |t.procs| ensures ProcOk(t, q) {
      assert ProcOk(s, q);
      assert s.procs[q].job == s.procs[p].job ==> q == p;
      assert s.procs[q].poller != s.procs[p].poller ==> t.pollers[s.procs[q].poller] == s.pollers[s.procs[q].poller];
    }
  }

  lemma WatchKeepsPollers(s: State, p: nat, watch: Watch, running: map<nat, nat>)
    requires Inv(s) && p < |s.procs| && s.procs[p].poller < |s.pollers| && s.procs[p].watch != NoMonitor
    requires forall j :: j != s.procs[p].job ==>
               var was := s.pollers[s.procs[p].poller].running;
               (j in running <==> j in was) && (j in was ==> running[j] == was[j])
    requires s.procs[p].job in running ==> running[s.procs[p].job] == p
    ensures var t := SetRunning(SetWatch(s, p, watch), s.procs[p].poller, running);
            forall l :: 0 <= l < |t.pollers| ==> PollerOk(t, l)
  {
    var t := SetRunning(SetWatch(s, p, watch), s.procs[p].poller, running);
    forall l | 0 <= l < |t.pollers| ensures PollerOk(t, l) {
      assert PollerOk(s, l);
      forall i | 0 <= i < |t.pollers[l].batch| ensures ItemOk(t, l, t.pollers[l].batch[i]) {
        assert ItemOk(s, l, s.pollers[l].batch[i]);
      }
    }
  }

  lemma WatchKeepsJobs(s: State, p: nat, watch: Watch, running: map<nat, nat>)
    requires Inv(s) && p < |s.procs| && s.procs[p].poller < |s.pollers| && watch != NoMonitor
    requires watch != Waiting ==> s.procs[p].job < |s.jobs| && s.jobs[s.procs[p].job].row.status !in {Claimed, Running}
    ensures var t := SetRunning(SetWatch(s, p, watch), s.procs[p].poller, running);
            forall i :: 0 <= i < |t.jobs| ==> JobOk(t.jobs[i]) && FamilyOk(t, i) && Owned(t, i)
  {
    var t := SetRunning(SetWatch(s, p, watch), s.procs[p].poller, running);
    assert ProcOk(s, p);
    forall i | 0 <= i < |t.jobs| ensures JobOk(t.jobs[i]) && FamilyOk(t, i) && Owned(t, i) {
      assert JobOk(s.jobs[i]) && FamilyOk(s, i) && Owned(s, i);
      assert forall l, task :: InHand(s, l, i, task) ==> InHand(t, l, i, task);
    }
  }

  lemma RegisterKeeps(s: State, p: nat)
    requires Inv(s) && Watched(s, p, Unregistered)
    ensures var Proc(j, k, _, _) := s.procs[p];
            Inv(SetRunning(SetWatch(s, p, Waiting), k, s.pollers[k].running[j := p]))
  {
    assert ProcOk(s, p);
    WatchKeeps(s, p, Waiting, s.pollers[s.procs[p].poller].running[s.procs[p].job := p]);
  }

  lemma DeregisterKeeps(s: State, p: nat)
    requires Inv(s) && Watched(s, p, Deregistering)
    ensures var Proc(j, k, _, _) := s.procs[p];
            Inv(SetRunning(SetWatch(s, p, Done), k, s.pollers[k].running - {j}))
  {
    assert ProcOk(s, p);
    WatchKeeps(s, p, Done, s.pollers[s.procs[p].poller].running - {s.procs[p].job});
  }

  lemma LeaveWaitingKeeps(s: State, p: nat)
    requires Inv(s) && Watched(s, p, Waiting) && s.jobs[s.procs[p].job].row.status !in {Claimed, Running}
    ensures Inv(SetWatch(s, p, Deregistering))
  {
    assert ProcOk(s, p);
    var k := s.procs[p].poller;
    assert SetRunning(SetWatch(s, p, Deregistering), k, s.pollers[k].running) == SetWatch(s, p, Deregistering);
    WatchKeeps(s, p, Deregistering, s.pollers[k].running);
  }

  lemma WriteOffKeeps(s: State, p: nat, e: Event)
    requires Inv(s) && Watched(s, p, Waiting)
    ensures Inv(WriteOff(s, p, e))
  {
    var j := s.procs[p].job;
    assert ProcOk(s, p) && JobOk(s.jobs[j]);
    OutcomesSettle(s.jobs[j].row, e.now, e.message);
    InterruptedSettles(s.jobs[j], e.now, e.message);
    var outcome := MarkInterrupted(s.jobs[j].row, e.now, e.message);
    FinalizeKeeps(s, j, Monitor(p), outcome);
    LeaveWaitingKeeps(Finalize(s, j, Monitor(p), outcome), p);
  }

  // ---------- Every step, every run ----------

  lemma DispatchingKeeps(s: State, e: Event)
    requires Inv(s) && (e.step.ClaimBatch? || e.step.Spawn? || e.step.StartMonitor? || e.step.RejectUnknown?)
    ensures Inv(PollerNext(s, e))
  {
    match e.step
    case ClaimBatch(k, ids) =>
      if CanClaim(s, k, ids) { ClaimKeeps(s, k, ids, e.now); }
    case Spawn(k) =>
      if HeadIs(s, k, Dispatch) { SpawnKeeps(s, k); }
    case StartMonitor(k) =>
      if k < |s.pollers| && s.pollers[k].batch != [] && s.pollers[k].batch[0].task.StartThread? { StartMonitorKeeps(s, k); }
    case RejectUnknown(k) =>
      if HeadIs(s, k, Dispatch) { HeadInterruptedKeeps(s, k, e); }
  }

  lemma SignalingKeeps(s: State, e: Event)
    requires Inv(s) && e.step.SignalProcess?
    ensures Inv(PollerNext(s, e))
  {
    if HeadIs(s, e.step.poller, Cancel) {
      SignaledHeadKeeps(s, e.step.poller);
    }
  }

  /** A signaled process leaves the row to its monitor; nobody relies on the poller for it. */
  lemma SignaledHeadKeeps(s: State, k: nat)
    requires Inv(s) && HeadIs(s, k, Cancel)
    ensures Inv(Pop(s, k))
  {
    assert PollerOk(s, k) && ItemOk(s, k, s.pollers[k].batch[0]);
    PopKeeps(s, k);
  }

  lemma MissingKeeps(s: State, e: Event)
    requires Inv(s) && e.step.MissProcess?
    ensures Inv(PollerNext(s, e))
  {
    if HeadIs(s, e.step.poller, Cancel) {
      RetaskKeeps(s, e.step.poller, Finish);
    }
  }

  lemma FinishingKeeps(s: State, e: Event)
    requires Inv(s) && e.step.FinishCancel?
    ensures Inv(PollerNext(s, e))
  {
    if HeadIs(s, e.step.poller, Finish) {
      FinishCancelKeeps(s, e.step.poller, e);
    }
  }

  lemma ItemFailureKeeps(s: State, e: Event)
    requires Inv(s) && e.step.ItemFails?
    ensures Inv(PollerNext(s, e))
  {
    var k := e.step.poller;
    if k < |s.pollers| && s.pollers[k].batch != [] {
      RetaskKeeps(s, k, Fail);
    }
  }

  lemma InterruptingKeeps(s: State, e: Event)
    requires Inv(s) && e.step.InterruptItem?
    ensures Inv(PollerNext(s, e))
  {
    if HeadIs(s, e.step.poller, Fail) {
      HeadInterruptedKeeps(s, e.step.poller, e);
    }
  }

  lemma CrashingKeeps(s: State, e: Event)
    requires Inv(s) && e.step.Crash?
    ensures Inv(PollerNext(s, e))
  {
    if e.step.poller < |s.pollers| {
      CrashKeeps(s, e.step.poller);
    }
  }

  lemma HeadInterruptedKeeps(s: State, k: nat, e: Event)
    requires Inv(s) && (HeadIs(s, k, Dispatch) || HeadIs(s, k, Fail))
    ensures var j := HeadJob(s, k);
            Inv(Pop(SetJob(s, j, Mark(s.jobs[j], Poller(k), MarkInterrupted(s.jobs[j].row, e.now, e.message))), k))
  {
    var j := HeadJob(s, k);
    assert PollerOk(s, k) && ItemOk(s, k, s.pollers[k].batch[0]) && JobOk(s.jobs[j]);
    OutcomesSettle(s.jobs[j].row, e.now, e.message);
    InterruptedSettles(s.jobs[j], e.now, e.message);
    MarkKeeps(s, j, Poller(k), MarkInterrupted(s.jobs[j].row, e.now, e.message));
    PopKeeps(SetJob(s, j, Mark(s.jobs[j], Poller(k), MarkInterrupted(s.jobs[j].row, e.now, e.message))), k);
  }

  lemma FinishCancelKeeps(s: State, k: nat, e: Event)
    requires Inv(s) && HeadIs(s, k, Finish)
    ensures var j := HeadJob(s, k); Inv(Finalize(Pop(s, k), j, Poller(k), MarkCanceled(s.jobs[j].row, e.now)))
  {
    var j := HeadJob(s, k);
    assert PollerOk(s, k) && ItemOk(s, k, s.pollers[k].batch[0]) && JobOk(s.jobs[j]);
    OutcomesSettle(s.jobs[j].row, e.now, e.message);
    FirstAllowedIsAllowed(s.jobs[j].row.status, [Canceled]);
    PopKeeps(s, k);
    FinalizeKeeps(Pop(s, k), j, Poller(k), MarkCanceled(s.jobs[j].row, e.now));
  }

  /** A process reaches the end of its handler, or dies. */
  lemma MoveOnKeeps(s: State, p: nat, pc: Pc)
    requires Inv(s) && p < |s.procs|
    requires (s.procs[p].pc == Handling && pc in {Completing, Interrupting}) || (!s.procs[p].pc.Exited? && pc == Exited(false))
    ensures Inv(SetPc(s, p, pc))
  {
    assert ProcOk(s, p);
    SetPcKeeps(s, p, pc);
  }

  lemma HandlingKeeps(s: State, e: Event)
    requires Inv(s) && (e.step.Begin? || e.step.HandlerReturns? || e.step.HandlerRaises? || e.step.Die?)
    ensures Inv(ProcessNext(s, e))
  {
    match e.step
    case Begin(p) =>
      if At(s, p, Starting) { BeginKeeps(s, p, e); }
    case HandlerReturns(p) =>
      if At(s, p, Handling) { MoveOnKeeps(s, p, Completing); }
    case HandlerRaises(p) =>
      if At(s, p, Handling) { MoveOnKeeps(s, p, Interrupting); }
    case Die(p) =>
      if p < |s.procs| && !s.procs[p].pc.Exited? { MoveOnKeeps(s, p, Exited(false)); }
  }

  lemma SettlingKeeps(s: State, e: Event)
    requires Inv(s) && (e.step.Complete? || e.step.Interrupt?)
    ensures Inv(ProcessNext(s, e))
  {
    var p := e.step.proc;
    if At(s, p, Completing) || At(s, p, Interrupting) {
      OutcomeKeeps(s, p, e);
    }
  }

  lemma CallingBackKeeps(s: State, e: Event)
    requires Inv(s) && e.step.CallBack?
    ensures Inv(ProcessNext(s, e))
  {
    var p := e.step.proc;
    if At(s, p, CallingBack) && CallbacksLeft(s.jobs[s.procs[p].job]) > 0 {
      SettledByItsProcess(s, p);
      CallNextKeeps(s, s.procs[p].job, Subprocess(p), e.step.submits);
    }
  }

  lemma LeavingKeeps(s: State, e: Event)
    requires Inv(s) && e.step.Leave?
    ensures Inv(ProcessNext(s, e))
  {
    var p := e.step.proc;
    if At(s, p, CallingBack) && CallbacksLeft(s.jobs[s.procs[p].job]) == 0 {
      LeaveKeeps(s, p);
    }
  }

  lemma SettledByItsProcess(s: State, p: nat)
    requires Inv(s) && At(s, p, CallingBack)
    ensures s.jobs[s.procs[p].job].enteredBy == [Subprocess(p)]
  {
    assert ProcOk(s, p);
  }

  lemma LeaveKeeps(s: State, p: nat)
    requires Inv(s) && At(s, p, CallingBack) && CallbacksLeft(s.jobs[s.procs[p].job]) == 0
    ensures Inv(SetPc(s, p, Exited(true)))
  {
    assert ProcOk(s, p) && JobOk(s.jobs[s.procs[p].job]);
    SetPcKeeps(s, p, Exited(true));
  }

  lemma OutcomeKeeps(s: State, p: nat, e: Event)
    requires Inv(s) && (At(s, p, Completing) || At(s, p, Interrupting))
    ensures var row := s.jobs[s.procs[p].job].row;
            Inv(SettleStep(s, p, MarkCompleted(row, e.now))) && Inv(SettleStep(s, p, MarkInterrupted(row, e.now, e.message)))
  {
    var job := s.jobs[s.procs[p].job];
    assert ProcOk(s, p) && JobOk(job);
    OutcomesSettle(job.row, e.now, e.message);
    CompletedSettles(job, e.now);
    InterruptedSettles(job, e.now, e.message);
    SettleKeeps(s, p, MarkCompleted(job.row, e.now));
    SettleKeeps(s, p, MarkInterrupted(job.row, e.now, e.message));
  }

  lemma MonitorNextKeeps(s: State, e: Event)
    requires Inv(s)
    ensures Inv(MonitorNext(s, e))
  {
    match e.step
    case Register(p) =>
      if Watched(s, p, Unregistered) { RegisterKeeps(s, p); }
    case Reap(p) =>
      if Watched(s, p, Waiting) && s.procs[p].pc.Exited? {
        assert ProcOk(s, p);
        if s.procs[p].pc.clean { LeaveWaitingKeeps(s, p); } else { WriteOffKeeps(s, p, e); }
      }
    case MonitorFails(p) =>
      if Watched(s, p, Waiting) { WriteOffKeeps(s, p, e); }
    case Deregister(p) =>
      if Watched(s, p, Deregistering) { DeregisterKeeps(s, p); }
    case _ =>
  }

  lemma AskingKeeps(s: State, e: Event)
    requires Inv(s) && (e.step.Submit? || e.step.AskCancel?)
    ensures Inv(Next(s, e))
  {
    match e.step
    case Submit(jobKey) => SubmitKeeps(s, jobKey);
    case AskCancel(j) =>
      if j < |s.jobs| {
        assert JobOk(s.jobs[j]);
        OutcomesSettle(s.jobs[j].row, e.now, e.message);
        MarkKeeps(s, j, Api, RequestCancel(s.jobs[j].row));
      }
  }

  /** Every step of every actor keeps the invariant. */
  lemma NextKeeps(s: State, e: Event)
    requires Inv(s)
    ensures Inv(Next(s, e))
  {
    match e.step
    case Submit(_) => AskingKeeps(s, e);
    case AskCancel(_) => AskingKeeps(s, e);
    case ClaimBatch(_, _) => DispatchingKeeps(s, e);
    case Spawn(_) => DispatchingKeeps(s, e);
    case StartMonitor(_) => DispatchingKeeps(s, e);
    case RejectUnknown(_) => DispatchingKeeps(s, e);
    case SignalProcess(_) => SignalingKeeps(s, e);
    case MissProcess(_) => MissingKeeps(s, e);
    case FinishCancel(_) => FinishingKeeps(s, e);
    case ItemFails(_) => ItemFailureKeeps(s, e);
    case InterruptItem(_) => InterruptingKeeps(s, e);
    case Crash(_) => CrashingKeeps(s, e);
    case Begin(_) => HandlingKeeps(s, e);
    case HandlerReturns(_) => HandlingKeeps(s, e);
    case HandlerRaises(_) => HandlingKeeps(s, e);
    case Die(_) => HandlingKeeps(s, e);
    case Complete(_) => SettlingKeeps(s, e);
    case Interrupt(_) => SettlingKeeps(s, e);
    case CallBack(_, _) => CallingBackKeeps(s, e);
    case Leave(_) => LeavingKeeps(s, e);
    case _ => MonitorNextKeeps(s, e);
  }

  lemma {:induction false} ExecKeeps(s: State, events: seq<Event>)
    requires Inv(s)
    ensures Inv(Exec(s, events))
    decreases |events|
  {
    if events != [] {
      NextKeeps(s, events[0]);
      ExecKeeps(Next(s, events[0]), events[1..]);
    }
  }

  lemma InitialOk(schedulers: nat)
    ensures Inv(Initial(schedulers))
  {
  }
}
