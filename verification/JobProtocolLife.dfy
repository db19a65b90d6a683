/**
 The ways through the life of a job are open: from every reachable state the steps of a
 scheduler, a process and a monitor take a job from the queue to its end, whatever that is.
 */
module JobProtocolLife {
  import opened Wrappers
  import opened JobExecutions
  import opened JobRegistry
  import opened JobProtocol
  import opened JobProtocolInvariant
  import opened JobProtocolRuns
  import opened JobProtocolCancel
  import opened JobProtocolOutcomes

  // ---------- From the queue to the handler ----------

  /** An idle scheduler takes a pending job of a known kind: a process is started for it. */
  lemma ClaimedAndSpawned(s: State, k: nat, j: nat, claim: Event, spawn: Event)
    requires Reachable(s) && Idle(s, k) && j < |s.jobs| && s.jobs[j].row.status == Pending && s.jobs[j].row.jobKey in JOB_DISPATCH
    requires claim.step == ClaimBatch(k, [j]) && spawn.step == Spawn(k)
    ensures var t, p := Exec(s, [claim, spawn]), |s.procs|;
            && t.procs == s.procs + [Proc(j, k, Starting, NoMonitor)]
            && |t.jobs| == |s.jobs| && t.jobs[j].claim == Spawned(p)
            && t.jobs[j].row == s.jobs[j].row.(status := Claimed, claimedAt := Some(claim.now))
            && k < |t.pollers| && t.pollers[k].batch == [Item(j, StartThread(p))] && !t.pollers[k].crashed
            && t.pollers[k].running == s.pollers[k].running
  {
    var s1 := Next(s, claim);
    assert CanClaim(s, k, [j]) && j in [j];
    assert s1 == ClaimStep(s, k, [j], claim.now);
    assert s1.pollers[k].batch == [Item(j, Dispatch)] && HeadIs(s1, k, Dispatch);
    assert Next(s1, spawn) == SpawnStep(s1, k);
    ExecPair(s, claim, spawn);
  }

  /** The monitor thread of the process at the head of a batch is started; the head is done. */
  lemma MonitorIsStarted(s: State, k: nat, p: nat, start: Event)
    requires k < |s.pollers| && !s.pollers[k].crashed && p < |s.procs| && start.step == StartMonitor(k)
    requires s.pollers[k].batch != [] && s.pollers[k].batch[0] == Item(s.procs[p].job, StartThread(p))
    ensures Next(s, start) == s.(procs := s.procs[p := s.procs[p].(watch := Unregistered)],
                                 pollers := s.pollers[k := s.pollers[k].(batch := s.pollers[k].batch[1..])])
  {
    assert s.pollers[k].batch[0].task.StartThread? && s.pollers[k].batch[0].task.proc == p;
  }

  /** The monitor thread enters its process in the dictionary of its scheduler. */
  lemma ProcessIsRegistered(s: State, k: nat, p: nat, register: Event)
    requires Watched(s, p, Unregistered) && s.procs[p].poller == k && register.step == Register(p)
    ensures Next(s, register) == s.(procs := s.procs[p := s.procs[p].(watch := Waiting)],
                                    pollers := s.pollers[k := s.pollers[k].(running := s.pollers[k].running[s.procs[p].job := p])])
  {
  }

  /** A started process runs the handler of a job that is still claimed. */
  lemma ClaimedJobBegins(s: State, p: nat, begin: Event)
    requires Reachable(s) && At(s, p, Starting) && begin.step == Begin(p)
    requires s.jobs[s.procs[p].job].row.jobKey in JOB_DISPATCH
    ensures var j, t := s.procs[p].job, Next(s, begin);
            && |t.jobs| == |s.jobs| && |t.procs| == |s.procs| && t.pollers == s.pollers
            && if s.jobs[j].row.status == Claimed then
                 && t.jobs[j].row == s.jobs[j].row.(status := Running, startedAt := Some(begin.now))
                 && t.jobs[j].handlers == [Subprocess(p)] && t.procs == s.procs[p := s.procs[p].(pc := Handling)]
               else t.jobs == s.jobs && t.procs == s.procs[p := s.procs[p].(pc := Exited(true))]
  {
    ReachableOk(s);
    assert ProcOk(s, p);
    FirstAllowedIsAllowed(s.jobs[s.procs[p].job].row.status, [Running]);
    assert [Running][0] == Running;
  }

  // ---------- Callbacks ----------

  function CallBackEvents(p: nat, n: nat, submits: bool): (events: seq<Event>)
    ensures |events| == n
  {
    seq(n, _ => Early(CallBack(p, submits)))
  }

  /** A score update is submitted by the callbacks from the n-th on. */
  predicate SubmitsFrom(row: Row, n: nat, submits: bool) {
    submits && row.status == Completed && n <= |FinalCallbacks(row.jobKey)| && EnqueueScoreUpdate in FinalCallbacks(row.jobKey)[n..]
  }

  /** What one more callback does to its job. */
  lemma NextCallback(s: State, p: nat, submits: bool)
    requires At(s, p, CallingBack) && CallbacksLeft(s.jobs[s.procs[p].job]) > 0
    ensures var j, t := s.procs[p].job, Next(s, Early(CallBack(p, submits)));
            var a, b := s.jobs[j], t.jobs[j];
            && |s.jobs| <= |t.jobs| && t.procs == s.procs && b.row == a.row && |b.callbacks| == |a.callbacks| + 1
            && (SubmitsFrom(a.row, |a.callbacks|, submits) <==>
                  SubmitsFrom(a.row, |b.callbacks|, submits) || |b.followUps| > |a.followUps|)
            && |b.followUps| >= |a.followUps|
  {
    var j := s.procs[p].job;
    var all, n := FinalCallbacks(s.jobs[j].row.jobKey), |s.jobs[j].callbacks|;
    assert all[n..] == [all[n]] + all[n + 1..];
  }

  /** What the remaining callbacks have done to their job: all are run, and a score update is submitted if one of them asks for it. */
  predicate CalledBack(a: Job, b: Job, submits: bool) {
    && b.row == a.row && b.callbacks == FinalCallbacks(a.row.jobKey)
    && (b.followUps != [] <==> a.followUps != [] || SubmitsFrom(a.row, |a.callbacks|, submits))
  }

  lemma NothingLeftToCall(job: Job, submits: bool)
    requires JobOk(job) && CallbacksLeft(job) == 0
    ensures CalledBack(job, job, submits)
  {
  }

  /** Calling back until nothing is left. */
  lemma {:induction false} RemainingCallbacks(s: State, p: nat, submits: bool)
    requires Inv(s) && At(s, p, CallingBack)
    ensures var j, t := s.procs[p].job, Exec(s, CallBackEvents(p, CallbacksLeft(s.jobs[s.procs[p].job]), submits));
            |s.jobs| <= |t.jobs| && t.procs == s.procs && CalledBack(s.jobs[j], t.jobs[j], submits)
    decreases CallbacksLeft(s.jobs[s.procs[p].job])
  {
    var j := s.procs[p].job;
    var n := CallbacksLeft(s.jobs[j]);
    var events := CallBackEvents(p, n, submits);
    assert JobOk(s.jobs[j]);
    if n == 0 {
      NothingLeftToCall(s.jobs[j], submits);
    } else {
      NextCallback(s, p, submits);
      NextKeeps(s, events[0]);
      RemainingCallbacks(Next(s, events[0]), p, submits);
      assert events[1..] == CallBackEvents(p, n - 1, submits);
    }
  }

  /** From the first callback on a score update is submitted for completed runs of profiling and tests only. */
  lemma SubmitsFromStart(row: Row, submits: bool)
    ensures SubmitsFrom(row, 0, submits) <==> submits && row.status == Completed && row.jobKey in {"run-profile", "run-tests"}
  {
    ScoredKinds(row.jobKey);
    assert FinalCallbacks(row.jobKey)[0..] == FinalCallbacks(row.jobKey);
  }

  lemma Leaves(s: State, p: nat)
    requires At(s, p, CallingBack) && CallbacksLeft(s.jobs[s.procs[p].job]) == 0
    ensures Next(s, Early(Leave(p))) == SetPc(s, p, Exited(true))
  {
  }

  /**
   A process that has just settled its job runs every callback of its kind and leaves cleanly. A
   score update follows if and only if it can be submitted, the run completed and was one of
   profiling or of tests.
   */
  lemma SettledProcessFinishes(s: State, p: nat, submits: bool)
    requires Reachable(s) && At(s, p, CallingBack) && s.jobs[s.procs[p].job].callbacks == [] && s.jobs[s.procs[p].job].followUps == []
    ensures var j := s.procs[p].job;
            var t := Exec(s, CallBackEvents(p, CallbacksLeft(s.jobs[j]), submits) + [Early(Leave(p))]);
            && |s.jobs| <= |t.jobs| && |t.procs| == |s.procs| && t.procs[p] == s.procs[p].(pc := Exited(true))
            && t.jobs[j].row == s.jobs[j].row && t.jobs[j].callbacks == FinalCallbacks(s.jobs[j].row.jobKey)
            && (t.jobs[j].followUps != [] <==>
                  submits && s.jobs[j].row.status == Completed && s.jobs[j].row.jobKey in {"run-profile", "run-tests"})
  {
    var j := s.procs[p].job;
    var events, leave := CallBackEvents(p, CallbacksLeft(s.jobs[j]), submits), Early(Leave(p));
    ReachableOk(s);
    RemainingCallbacks(s, p, submits);
    SubmitsFromStart(s.jobs[j].row, submits);
    var t := Exec(s, events);
    assert CallbacksLeft(t.jobs[j]) == 0;
    Leaves(t, p);
    ExecLast(s, events + [leave]);
    assert (events + [leave])[..|events|] == events;
  }

  // ---------- Processes that die, items that fail, jobs that are canceled ----------

  /**
   What its monitor makes of a process: one that left cleanly changes no row; for one that died,
   or if the monitor itself fails, a job that is not settled is written off by the monitor, which
   runs all its callbacks.
   */
  lemma MonitorReaps(s: State, p: nat, e: Event)
    requires Reachable(s) && Watched(s, p, Waiting) && e.step in {Reap(p), MonitorFails(p)}
    requires e.step == Reap(p) ==> s.procs[p].pc.Exited?
    ensures var j, t := s.procs[p].job, Next(s, e);
            && |s.jobs| <= |t.jobs| && t.procs == s.procs[p := s.procs[p].(watch := Deregistering)]
            && if (e.step == Reap(p) && s.procs[p].pc.clean) || Terminal(s.jobs[j].row.status) then t.jobs == s.jobs
               else
                 && t.jobs[j].row == s.jobs[j].row.(
                      status := if s.jobs[j].row.status == CancelRequested then Canceled else Error,
                      completedAt := Some(e.now), errorMessage := Some(e.message))
                 && t.jobs[j].enteredBy == [Monitor(p)] && t.jobs[j].callbacks == FinalCallbacks(s.jobs[j].row.jobKey)
  {
    ReachableOk(s);
    WriteOffMeans(s, p, e);
    if e.step == Reap(p) && s.procs[p].pc.clean {
      assert Next(s, e) == SetWatch(s, p, Deregistering);
    } else {
      assert Next(s, e) == WriteOff(s, p, e);
    }
  }

  lemma WriteOffMeans(s: State, p: nat, e: Event)
    requires Inv(s) && p < |s.procs| && s.procs[p].job < |s.jobs|
    ensures var j, t := s.procs[p].job, WriteOff(s, p, e);
            && |s.jobs| <= |t.jobs| && t.procs == s.procs[p := s.procs[p].(watch := Deregistering)]
            && if Terminal(s.jobs[j].row.status) then t.jobs == s.jobs
               else
                 && t.jobs[j].row == s.jobs[j].row.(
                      status := if s.jobs[j].row.status == CancelRequested then Canceled else Error,
                      completedAt := Some(e.now), errorMessage := Some(e.message))
                 && t.jobs[j].enteredBy == [Monitor(p)] && t.jobs[j].callbacks == FinalCallbacks(s.jobs[j].row.jobKey)
  {
    var j := s.procs[p].job;
    var job := s.jobs[j];
    assert ProcOk(s, p) && JobOk(job);
    WriteOffOutcome(job.row, e.now, e.message);
    if Terminal(job.row.status) {
      assert s.jobs[j := job] == s.jobs;
    } else {
      var marked := SetJob(s, j, Mark(job, Monitor(p), MarkInterrupted(job.row, e.now, e.message)));
      CallAllRunsAll(marked, j, Monitor(p));
    }
  }

  lemma WriteOffOutcome(row: Row, now: int, message: string)
    requires row.status != Pending
    ensures MarkInterrupted(row, now, message) ==
            if Terminal(row.status) then (row, false)
            else (row.(status := if row.status == CancelRequested then Canceled else Error,
                       completedAt := Some(now), errorMessage := Some(message)), true)
  {
    TransitionTable(row, now, message);
  }

  lemma {:induction false} CallAllRunsAll(s: State, j: nat, actor: Actor)
    requires j < |s.jobs| && s.jobs[j].callbacks <= FinalCallbacks(s.jobs[j].row.jobKey)
    ensures var a, b := s.jobs[j], CallAll(s, j, actor).jobs[j];
            b.row == a.row && b.enteredBy == a.enteredBy && b.callbacks == FinalCallbacks(a.row.jobKey)
    decreases CallbacksLeft(s.jobs[j])
  {
    if CallbacksLeft(s.jobs[j]) > 0 {
      var all, n := FinalCallbacks(s.jobs[j].row.jobKey), |s.jobs[j].callbacks|;
      assert all[..n + 1] == all[..n] + [all[n]];
      CallAllRunsAll(CallNext(s, j, actor, true), j, actor);
    }
  }

  /** A pending job that is asked to cancel is taken by an idle scheduler, which knows no process of it. */
  lemma RequestIsTaken(s: State, k: nat, j: nat, ask: Event, claim: Event, miss: Event)
    requires Reachable(s) && Idle(s, k) && j < |s.jobs| && s.jobs[j].row.status == Pending
    requires ask.step == AskCancel(j) && claim.step == ClaimBatch(k, [j]) && miss.step == MissProcess(k)
    ensures var t := Next(Next(Next(s, ask), claim), miss);
            && HeadIs(t, k, Finish) && HeadJob(t, k) == j && t.procs == s.procs
            && t.jobs[j].row == s.jobs[j].row.(status := CancelRequested) && t.jobs[j].handlers == []
            && t.jobs[j].enteredBy == [] && t.jobs[j].callbacks == []
  {
    ReachableOk(s);
    assert JobOk(s.jobs[j]) && Owned(s, j);
    NobodyHoldsUnclaimed(s, k, j);
    TransitionTable(s.jobs[j].row, 0, "");
    var s1 := Next(s, ask);
    assert s1.jobs[j].row == s.jobs[j].row.(status := CancelRequested) && s1.pollers == s.pollers;
    ClaimTakesRequested(s1, claim, k, j);
    var s2 := Next(s1, claim);
    assert s2.pollers[k].running == s.pollers[k].running;
    assert Next(s2, miss) == Retask(s2, k, Finish);
  }

  lemma CancelIsFinished(s: State, k: nat, finish: Event)
    requires HeadIs(s, k, Finish) && finish.step == FinishCancel(k)
    requires var job := s.jobs[HeadJob(s, k)]; job.row.status == CancelRequested && job.enteredBy == [] && job.callbacks == []
    ensures var j, t := HeadJob(s, k), Next(s, finish);
            && j < |t.jobs| && t.jobs[j].row == s.jobs[j].row.(status := Canceled, completedAt := Some(finish.now))
            && t.jobs[j].enteredBy == [Poller(k)] && t.jobs[j].callbacks == FinalCallbacks(s.jobs[j].row.jobKey)
            && t.jobs[j].handlers == s.jobs[j].handlers && t.procs == s.procs
  {
    var j := HeadJob(s, k);
    TransitionTable(s.jobs[j].row, finish.now, "");
    var marked := SetJob(Pop(s, k), j, Mark(s.jobs[j], Poller(k), MarkCanceled(s.jobs[j].row, finish.now)));
    CallAllRunsAll(marked, j, Poller(k));
    CallAllKeepsHandlers(marked, j, Poller(k));
  }

  /** A pending job whose cancellation is asked for is canceled by the next scheduler that takes it, with callbacks. */
  lemma WaitingJobIsCanceled(s: State, k: nat, j: nat, ask: Event, claim: Event, miss: Event, finish: Event)
    requires Reachable(s) && Idle(s, k) && j < |s.jobs| && s.jobs[j].row.status == Pending
    requires ask.step == AskCancel(j) && claim.step == ClaimBatch(k, [j]) && miss.step == MissProcess(k) && finish.step == FinishCancel(k)
    ensures var t := Exec(s, [ask, claim, miss, finish]);
            && j < |t.jobs| && t.jobs[j].row == s.jobs[j].row.(status := Canceled, completedAt := Some(finish.now))
            && t.jobs[j].enteredBy == [Poller(k)] && t.jobs[j].callbacks == FinalCallbacks(s.jobs[j].row.jobKey)
            && t.jobs[j].handlers == [] && t.procs == s.procs
  {
    RequestIsTaken(s, k, j, ask, claim, miss);
    CancelIsFinished(Next(Next(Next(s, ask), claim), miss), k, finish);
    ExecFour(s, ask, claim, miss, finish);
  }

  lemma NobodyHoldsUnclaimed(s: State, k: nat, j: nat)
    requires Inv(s) && k < |s.pollers| && j < |s.jobs| && s.jobs[j].claim == Unclaimed
    ensures j !in s.pollers[k].running
  {
    assert PollerOk(s, k);
    assert forall i :: i in s.pollers[k].running ==> ProcOk(s, s.pollers[k].running[i]);
  }

  lemma {:induction false} CallAllKeepsHandlers(s: State, j: nat, actor: Actor)
    requires j < |s.jobs|
    ensures CallAll(s, j, actor).jobs[j].handlers == s.jobs[j].handlers
    decreases CallbacksLeft(s.jobs[j])
  {
    if CallbacksLeft(s.jobs[j]) > 0 {
      CallAllKeepsHandlers(CallNext(s, j, actor, true), j, actor);
    }
  }

  /**
   The head of a batch that cannot be handled: a job of an unknown kind, or one whose handling
   failed. Unless it is settled already it is written off by the poller, without callbacks, and
   the poller goes on to the next.
   */
  lemma UnhandledHeadIsWrittenOff(s: State, k: nat, e: Event)
    requires Reachable(s)
    requires (e.step == InterruptItem(k) && HeadIs(s, k, Fail))
             || (e.step == RejectUnknown(k) && HeadIs(s, k, Dispatch) && s.jobs[HeadJob(s, k)].row.jobKey !in JOB_DISPATCH)
    ensures var j, t := HeadJob(s, k), Next(s, e);
            && t == s.(jobs := s.jobs[j := t.jobs[j]],
                       pollers := s.pollers[k := s.pollers[k].(batch := s.pollers[k].batch[1..])])
            && t.jobs[j].callbacks == s.jobs[j].callbacks
            && if Terminal(s.jobs[j].row.status) then t.jobs[j] == s.jobs[j]
               else
                 && t.jobs[j].row == s.jobs[j].row.(
                      status := if s.jobs[j].row.status == CancelRequested then Canceled else Error,
                      completedAt := Some(e.now), errorMessage := Some(e.message))
                 && t.jobs[j].enteredBy == [Poller(k)]
  {
    var j := HeadJob(s, k);
    ReachableOk(s);
    assert PollerOk(s, k) && ItemOk(s, k, s.pollers[k].batch[0]) && JobOk(s.jobs[j]);
    WriteOffOutcome(s.jobs[j].row, e.now, e.message);
  }

  /** Signaling a process that is held leaves every row and process as it is; a monitor that is done leaves only its entry. */
  lemma SignalAndDeregister(s: State, k: nat, p: nat, signal: Event, deregister: Event)
    requires Reachable(s) && k < |s.pollers| && p < |s.procs| && s.procs[p].poller == k
    requires signal.step == SignalProcess(k) && deregister.step == Deregister(p)
    ensures HeadIs(s, k, Cancel) && HeadJob(s, k) == s.procs[p].job && Holds(s, k, p) ==>
              Next(s, signal) == s.(pollers := s.pollers[k := s.pollers[k].(batch := s.pollers[k].batch[1..])])
    ensures s.procs[p].watch == Deregistering ==>
              Next(s, deregister) == s.(procs := s.procs[p := s.procs[p].(watch := Done)],
                                        pollers := s.pollers[k := s.pollers[k].(running := s.pollers[k].running - {s.procs[p].job})])
  {
    ReachableOk(s);
    MissesIffNotHeld(s, k, p);
    assert ProcOk(s, p);
  }

  /** A process of an unknown kind fails its job, if it can still be failed, without callbacks, and leaves cleanly. */
  lemma UnknownKindLeaves(s: State, p: nat, begin: Event)
    requires Reachable(s) && At(s, p, Starting) && begin.step == Begin(p) && s.jobs[s.procs[p].job].row.jobKey !in JOB_DISPATCH
    ensures var j, t := s.procs[p].job, Next(s, begin);
            && |t.jobs| == |s.jobs| && t.procs == s.procs[p := s.procs[p].(pc := Exited(true))]
            && t.jobs[j].callbacks == s.jobs[j].callbacks && t.jobs[j].handlers == s.jobs[j].handlers
            && t.jobs[j].row == if Terminal(s.jobs[j].row.status) then s.jobs[j].row
                                else s.jobs[j].row.(
                                  status := if s.jobs[j].row.status == CancelRequested then Canceled else Error,
                                  completedAt := Some(begin.now), errorMessage := Some(begin.message))
  {
    ReachableOk(s);
    assert ProcOk(s, p) && JobOk(s.jobs[s.procs[p].job]);
    WriteOffOutcome(s.jobs[s.procs[p].job].row, begin.now, begin.message);
  }

  /** The head of a batch whose handling fails, whatever it was at: it is written off and the next one is up. */
  lemma FailedItemIsWrittenOff(s: State, k: nat, fails: Event, interrupt: Event)
    requires Reachable(s) && k < |s.pollers| && s.pollers[k].batch != []
    requires fails.step == ItemFails(k) && interrupt.step == InterruptItem(k)
    ensures var t := Exec(s, [fails, interrupt]);
            var j := s.pollers[k].batch[0].job;
            && j < |s.jobs| == |t.jobs| && k < |t.pollers| && t.pollers[k].batch == s.pollers[k].batch[1..]
            && Terminal(t.jobs[j].row.status) && t.procs == s.procs
            && (!Terminal(s.jobs[j].row.status) ==> t.jobs[j].row.errorMessage == Some(interrupt.message))
  {
    ReachableOk(s);
    assert PollerOk(s, k) && ItemOk(s, k, s.pollers[k].batch[0]);
    var failed := Next(s, fails);
    ReachableNext(s, fails);
    assert HeadIs(failed, k, Fail) && failed.pollers[k].batch[1..] == s.pollers[k].batch[1..];
    UnhandledHeadIsWrittenOff(failed, k, interrupt);
    ExecPair(s, fails, interrupt);
  }

  /** Death and crash write no row: a dead process has left uncleanly; a crashed scheduler has nothing in hand and watches nothing. */
  lemma DeathAndCrash(s: State, p: nat, k: nat, die: Event, crash: Event)
    requires p < |s.procs| && k < |s.pollers| && die.step == Die(p) && crash.step == Crash(k)
    ensures Next(s, die) == if s.procs[p].pc.Exited? then s else s.(procs := s.procs[p := s.procs[p].(pc := Exited(false))])
    ensures var t := Next(s, crash);
            && t.jobs == s.jobs && t.pollers == s.pollers[k := Scheduler([], map[], true)] && |t.procs| == |s.procs|
            && forall q :: 0 <= q < |s.procs| ==>
                 t.procs[q] == if s.procs[q].poller == k then s.procs[q].(watch := NoMonitor) else s.procs[q]
  {
  }
}
