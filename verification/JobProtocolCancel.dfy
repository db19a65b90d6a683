/**
 A job can be CANCELED while its handler is still running. When that happens, which steps do
 it, and that with one scheduler and no failures only the registration window allows it.
 */
module JobProtocolCancel {
  import opened Wrappers
  import opened JobExecutions
  import opened JobRegistry
  import opened JobProtocol
  import opened JobProtocolInvariant
  import opened JobProtocolRuns

  // ---------- What a poller that handles a cancellation finds ----------

  /** The scheduler holds the process in its dictionary of running jobs. */
  predicate Holds(s: State, k: nat, p: nat)
    requires p < |s.procs|
  {
    s.procs[p].poller == k && s.procs[p].watch in {Waiting, Deregistering}
  }

  /** A poller misses the process of a job exactly when it belongs to another scheduler or is not registered. */
  lemma MissesIffNotHeld(s: State, k: nat, p: nat)
    requires Reachable(s) && k < |s.pollers| && p < |s.procs|
    ensures s.procs[p].job in s.pollers[k].running <==> Holds(s, k, p)
  {
    ReachableOk(s);
    assert ProcOk(s, p) && PollerOk(s, k);
    var j := s.procs[p].job;
    if j in s.pollers[k].running {
      assert ProcOk(s, s.pollers[k].running[j]);
    }
  }

  lemma {:induction false} CallAllKeepsRows(s: State, j: nat, actor: Actor)
    requires j < |s.jobs|
    ensures forall i :: 0 <= i < |s.jobs| ==> CallAll(s, j, actor).jobs[i].row == s.jobs[i].row
    decreases CallbacksLeft(s.jobs[j])
  {
    if CallbacksLeft(s.jobs[j]) > 0 {
      CallAllKeepsRows(CallNext(s, j, actor, true), j, actor);
    }
  }

  lemma FinalizeRows(s: State, j: nat, actor: Actor, outcome: (Row, bool))
    requires j < |s.jobs| && (!outcome.1 ==> outcome.0 == s.jobs[j].row)
    ensures var t := Finalize(s, j, actor, outcome);
            |t.jobs| >= |s.jobs| && forall i :: 0 <= i < |s.jobs| ==> t.jobs[i].row == if i == j then outcome.0 else s.jobs[i].row
  {
    var marked := SetJob(s, j, Mark(s.jobs[j], actor, outcome));
    if outcome.1 {
      CallAllKeepsRows(marked, j, actor);
    }
  }

  lemma CanceledStatus(row: Row, now: int)
    ensures MarkCanceled(row, now).0.status == Canceled <==> row.status in {CancelRequested, Canceled}
    ensures !MarkCanceled(row, now).1 ==> MarkCanceled(row, now).0 == row
  {
    FirstAllowedIsAllowed(row.status, [Canceled]);
    assert [Canceled][0] == Canceled;
  }

  lemma InterruptedStatus(row: Row, now: int, message: string)
    ensures MarkInterrupted(row, now, message).0.status == Canceled <==> row.status in {CancelRequested, Canceled}
    ensures !MarkInterrupted(row, now, message).1 ==> MarkInterrupted(row, now, message).0 == row
  {
    FirstAllowedIsAllowed(row.status, [Error, Canceled]);
    assert [Error, Canceled][0] == Error && [Error, Canceled][1..] == [Canceled];
  }

  lemma FinishCancelRows(s: State, k: nat, e: Event)
    requires e.step == FinishCancel(k) && HeadIs(s, k, Finish)
    ensures var t := Next(s, e);
            && t.procs == s.procs && |t.jobs| >= |s.jobs|
            && forall i :: 0 <= i < |s.jobs| ==>
                 t.jobs[i].row == if i == HeadJob(s, k) then MarkCanceled(s.jobs[i].row, e.now).0 else s.jobs[i].row
  {
    var j := HeadJob(s, k);
    CanceledStatus(s.jobs[j].row, e.now);
    FinalizeRows(Pop(s, k), j, Poller(k), MarkCanceled(s.jobs[j].row, e.now));
  }

  /**
   Handling a cancel-requested job with a live process: the two steps that look the process
   up and cancel the row make it CANCELED, and leave the process as it is, exactly when the
   handling scheduler does not hold it in its dictionary.
   */
  lemma CanceledIffNotHeld(s: State, k: nat, p: nat, miss: Event, finish: Event)
    requires Reachable(s) && HeadIs(s, k, Cancel) && miss.step == MissProcess(k) && finish.step == FinishCancel(k)
    requires p < |s.procs| && s.procs[p].job == HeadJob(s, k) && s.jobs[HeadJob(s, k)].row.status == CancelRequested
    ensures var t := Next(Next(s, miss), finish);
            && HeadJob(s, k) < |t.jobs| && p < |t.procs| && t.procs[p] == s.procs[p]
            && (t.jobs[HeadJob(s, k)].row.status == Canceled <==> !Holds(s, k, p))
  {
    var j := HeadJob(s, k);
    MissesIffNotHeld(s, k, p);
    if !Holds(s, k, p) {
      var s1 := Next(s, miss);
      assert s1 == Retask(s, k, Finish) && HeadIs(s1, k, Finish);
      FinishCancelRows(s1, k, finish);
      CanceledStatus(s.jobs[j].row, finish.now);
    } else {
      assert Next(s, miss) == s && Next(s, finish) == s;
    }
  }

  // ---------- The steps that cancel under a running handler ----------

  /** The three ways: a poller that missed the process, a poller after a failure, a monitor that fails. */
  predicate Outruns(s: State, e: Event, p: nat)
    requires p < |s.procs|
  {
    match e.step
    case FinishCancel(k) => HeadIs(s, k, Finish) && HeadJob(s, k) == s.procs[p].job
    case InterruptItem(k) => HeadIs(s, k, Fail) && HeadJob(s, k) == s.procs[p].job
    case MonitorFails(q) => q == p && Watched(s, p, Waiting)
    case _ => false
  }

  /** The handler of the process is running. */
  predicate Runs(s: State, p: nat) { p < |s.procs| && s.procs[p].pc == Handling && s.procs[p].job < |s.jobs| }

  lemma RejectionKeepsRow(s: State, e: Event, p: nat)
    requires Inv(s) && Runs(s, p) && e.step.RejectUnknown?
    ensures var j, t := s.procs[p].job, Next(s, e); j < |t.jobs| && t.jobs[j].row == s.jobs[j].row
  {
    var k := e.step.poller;
    assert ProcOk(s, p);
    if HeadIs(s, k, Dispatch) {
      assert PollerOk(s, k) && ItemOk(s, k, s.pollers[k].batch[0]);
      assert HeadJob(s, k) != s.procs[p].job;
    }
  }

  lemma InterruptionCancels(s: State, e: Event, p: nat)
    requires Runs(s, p) && e.step.InterruptItem?
    ensures var j, t := s.procs[p].job, Next(s, e);
            && j < |t.jobs|
            && (t.jobs[j].row.status == Canceled <==>
                  s.jobs[j].row.status == Canceled || (s.jobs[j].row.status == CancelRequested && Outruns(s, e, p)))
  {
    var k := e.step.poller;
    if HeadIs(s, k, Fail) {
      InterruptedStatus(s.jobs[HeadJob(s, k)].row, e.now, e.message);
    }
  }

  lemma FinishingCancels(s: State, e: Event, p: nat)
    requires Runs(s, p) && e.step.FinishCancel?
    ensures var j, t := s.procs[p].job, Next(s, e);
            && j < |t.jobs|
            && (t.jobs[j].row.status == Canceled <==>
                  s.jobs[j].row.status == Canceled || (s.jobs[j].row.status == CancelRequested && Outruns(s, e, p)))
  {
    var k := e.step.poller;
    if HeadIs(s, k, Finish) {
      FinishCancelRows(s, k, e);
      CanceledStatus(s.jobs[HeadJob(s, k)].row, e.now);
    }
  }

  /** A write-off reaches the job of its own process only. */
  lemma WriteOffRows(s: State, q: nat, e: Event)
    requires q < |s.procs| && s.procs[q].job < |s.jobs|
    ensures var t := WriteOff(s, q, e);
            |t.jobs| >= |s.jobs| && forall i :: 0 <= i < |s.jobs| ==>
              t.jobs[i].row == if i == s.procs[q].job then MarkInterrupted(s.jobs[i].row, e.now, e.message).0 else s.jobs[i].row
  {
    var i := s.procs[q].job;
    InterruptedStatus(s.jobs[i].row, e.now, e.message);
    FinalizeRows(s, i, Monitor(q), MarkInterrupted(s.jobs[i].row, e.now, e.message));
  }

  lemma OneProcessPerJob(s: State, p: nat, q: nat)
    requires Inv(s) && p < |s.procs| && q < |s.procs| && s.procs[q].job == s.procs[p].job
    ensures q == p
  {
    assert ProcOk(s, p) && ProcOk(s, q);
  }

  lemma MonitorStepCancels(s: State, e: Event, p: nat)
    requires Inv(s) && Runs(s, p)
    requires e.step.Reap? || e.step.MonitorFails?
    ensures var j, t := s.procs[p].job, MonitorNext(s, e);
            && j < |t.jobs|
            && (t.jobs[j].row.status == Canceled <==>
                  s.jobs[j].row.status == Canceled || (s.jobs[j].row.status == CancelRequested && Outruns(s, e, p)))
  {
    var q := e.step.proc;
    if Watched(s, q, Waiting) {
      WriteOffRows(s, q, e);
      if s.procs[q].job == s.procs[p].job {
        OneProcessPerJob(s, p, q);
      }
      InterruptedStatus(s.jobs[s.procs[p].job].row, e.now, e.message);
    }
  }

  lemma ProcessStepKeepsRow(s: State, e: Event, p: nat)
    requires Inv(s) && Runs(s, p)
    requires e.step.Begin? || e.step.Complete? || e.step.Interrupt? || e.step.CallBack?
    ensures var j, t := s.procs[p].job, ProcessNext(s, e); j < |t.jobs| && t.jobs[j].row == s.jobs[j].row
  {
    var q := e.step.proc;
    assert ProcOk(s, p);
    if q < |s.procs| {
      assert ProcOk(s, q) && (s.procs[q].job == s.procs[p].job ==> q == p);
    }
  }

  lemma QuietStepKeepsRow(s: State, e: Event, j: nat)
    requires j < |s.jobs|
    requires e.step.Submit? || e.step.Spawn? || e.step.StartMonitor? || e.step.SignalProcess? || e.step.MissProcess?
             || e.step.ItemFails? || e.step.Crash? || e.step.HandlerReturns? || e.step.HandlerRaises? || e.step.Leave?
             || e.step.Die? || e.step.Register? || e.step.Deregister?
    ensures j < |Next(s, e).jobs| && Next(s, e).jobs[j].row == s.jobs[j].row
  {
  }

  lemma RequestStepCancelsNothing(s: State, e: Event, j: nat)
    requires j < |s.jobs| && (e.step.AskCancel? || e.step.ClaimBatch?)
    ensures j < |Next(s, e).jobs|
    ensures Next(s, e).jobs[j].row.status == Canceled <==> s.jobs[j].row.status == Canceled
  {
    FirstAllowedIsAllowed(s.jobs[j].row.status, [CancelRequested]);
    assert [CancelRequested][0] == CancelRequested;
  }

  /**
   Over every reachable state and step: a job becomes CANCELED under its running handler
   exactly when a cancellation was requested and the step is one of the three.
   */
  lemma CanceledUnderHandlerIff(s: State, e: Event, p: nat)
    requires Reachable(s) && Runs(s, p) && s.jobs[s.procs[p].job].row.status != Canceled
    ensures var j, t := s.procs[p].job, Next(s, e);
            && j < |t.jobs|
            && (t.jobs[j].row.status == Canceled <==> s.jobs[j].row.status == CancelRequested && Outruns(s, e, p))
  {
    ReachableOk(s);
    StepCancelsIff(s, e, p);
  }

  lemma StepCancelsIff(s: State, e: Event, p: nat)
    requires Inv(s) && Runs(s, p)
    ensures var j, t := s.procs[p].job, Next(s, e);
            && j < |t.jobs|
            && (t.jobs[j].row.status == Canceled <==>
                  s.jobs[j].row.status == Canceled || (s.jobs[j].row.status == CancelRequested && Outruns(s, e, p)))
  {
    var j := s.procs[p].job;
    match e.step
    case AskCancel(_) => RequestStepCancelsNothing(s, e, j);
    case ClaimBatch(_, _) => RequestStepCancelsNothing(s, e, j);
    case RejectUnknown(_) => RejectionKeepsRow(s, e, p);
    case InterruptItem(_) => InterruptionCancels(s, e, p);
    case FinishCancel(_) => FinishingCancels(s, e, p);
    case Reap(_) => MonitorStepCancels(s, e, p);
    case MonitorFails(_) => MonitorStepCancels(s, e, p);
    case Begin(_) => ProcessStepKeepsRow(s, e, p);
    case Complete(_) => ProcessStepKeepsRow(s, e, p);
    case Interrupt(_) => ProcessStepKeepsRow(s, e, p);
    case CallBack(_, _) => ProcessStepKeepsRow(s, e, p);
    case _ => QuietStepKeepsRow(s, e, j);
  }

  // ---------- One scheduler, no failures ----------

  /** No item of a batch fails and no monitor does; subprocesses may still die and the scheduler may crash. */
  predicate Orderly(e: Event) { !e.step.ItemFails? && !e.step.MonitorFails? }

  /** What holds with a single scheduler as long as nothing fails. */
  predicate Tidy(s: State) {
    && |s.pollers| == 1
    && (forall i :: 0 <= i < |s.pollers[0].batch| ==> s.pollers[0].batch[i].task != Fail)
    && (forall p :: 0 <= p < |s.procs| ==> TidyProc(s, p))
  }

  predicate TidyProc(s: State, p: nat)
    requires |s.pollers| == 1 && p < |s.procs|
  {
    && (s.procs[p].watch in {Deregistering, Done} ==> s.procs[p].pc.Exited?)
    && (s.procs[p].watch == NoMonitor ==>
          s.pollers[0].crashed || Item(s.procs[p].job, StartThread(p)) in s.pollers[0].batch)
  }

  /** The scheduler keeps what it has in hand, but for a task it has finished that starts no thread. */
  predicate BatchGoesOn(s: State, t: State)
    requires |s.pollers| == 1
  {
    && |t.pollers| == 1 && t.pollers[0].crashed == s.pollers[0].crashed
    && (forall i :: 0 <= i < |t.pollers[0].batch| ==> t.pollers[0].batch[i].task != Fail)
    && (forall item :: item in s.pollers[0].batch && item.task.StartThread? ==> item in t.pollers[0].batch)
  }

  lemma TidyGoesOn(s: State, t: State)
    requires Tidy(s) && BatchGoesOn(s, t) && |t.procs| == |s.procs|
    requires forall p :: 0 <= p < |s.procs| ==>
               && t.procs[p].job == s.procs[p].job && t.procs[p].watch == s.procs[p].watch
               && (s.procs[p].pc.Exited? ==> t.procs[p].pc.Exited?)
    ensures Tidy(t)
  {
    forall p | 0 <= p < |t.procs| ensures TidyProc(t, p) {
      assert TidyProc(s, p);
    }
  }

  lemma HeadGoes(s: State, t: State)
    requires Tidy(s) && |t.pollers| == 1 && s.pollers[0].batch != [] && !s.pollers[0].batch[0].task.StartThread?
    requires t.pollers[0].crashed == s.pollers[0].crashed && t.pollers[0].batch == s.pollers[0].batch[1..]
    ensures BatchGoesOn(s, t)
  {
    var batch := s.pollers[0].batch;
    assert batch == [batch[0]] + batch[1..];
  }

  lemma FinishPops(s: State, e: Event)
    requires Tidy(s) && e.step == FinishCancel(0) && HeadIs(s, 0, Finish)
    ensures Tidy(Next(s, e))
  {
    FinishCancelRows(s, 0, e);
    HeadGoes(s, Next(s, e));
    TidyGoesOn(s, Next(s, e));
  }

  lemma PopTidy(s: State, e: Event)
    requires Tidy(s) && (e.step.RejectUnknown? || e.step.SignalProcess? || e.step.InterruptItem?)
    ensures Tidy(Next(s, e))
  {
    var t := Next(s, e);
    if t.pollers != s.pollers {
      HeadGoes(s, t);
    }
    TidyGoesOn(s, t);
  }

  lemma MissTidy(s: State, e: Event)
    requires Tidy(s) && e.step.MissProcess?
    ensures Tidy(Next(s, e))
  {
    var t := Next(s, e);
    if t != s {
      var batch, after := s.pollers[0].batch, t.pollers[0].batch;
      assert batch == [batch[0]] + batch[1..] && after == [Item(batch[0].job, Finish)] + batch[1..];
    }
    TidyGoesOn(s, t);
  }

  lemma ClaimTidy(s: State, e: Event)
    requires Tidy(s) && e.step.ClaimBatch?
    ensures Tidy(Next(s, e))
  {
    TidyGoesOn(s, Next(s, e));
  }

  lemma SpawnTidy(s: State, k: nat)
    requires Tidy(s) && HeadIs(s, k, Dispatch)
    ensures Tidy(SpawnStep(s, k))
  {
    var t, n := SpawnStep(s, k), |s.procs|;
    var batch, after := s.pollers[0].batch, t.pollers[0].batch;
    assert after == [Item(batch[0].job, StartThread(n))] + batch[1..] && batch == [batch[0]] + batch[1..];
    forall p | 0 <= p < |t.procs| ensures TidyProc(t, p) {
      assert p < n ==> TidyProc(s, p);
    }
  }

  lemma StartMonitorTidy(s: State, e: Event)
    requires Inv(s) && Tidy(s) && e.step.StartMonitor?
    ensures Tidy(Next(s, e))
  {
    var t := Next(s, e);
    if t != s {
      var batch := s.pollers[0].batch;
      var started := batch[0].task.proc;
      assert PollerOk(s, 0) && ItemOk(s, 0, batch[0]) && batch == [batch[0]] + batch[1..];
      forall p | 0 <= p < |t.procs| ensures TidyProc(t, p) {
        assert TidyProc(s, p);
      }
    }
  }

  lemma CrashTidy(s: State, k: nat)
    requires Tidy(s) && k < |s.pollers|
    ensures Tidy(CrashStep(s, k))
  {
    forall p | 0 <= p < |s.procs| ensures TidyProc(CrashStep(s, k), p) {
      assert TidyProc(s, p);
    }
  }

  lemma ProcessStepTidy(s: State, e: Event)
    requires Tidy(s)
    requires e.step.Begin? || e.step.HandlerReturns? || e.step.HandlerRaises? || e.step.Complete? || e.step.Interrupt?
             || e.step.CallBack? || e.step.Leave? || e.step.Die? || e.step.Submit? || e.step.AskCancel?
    ensures Tidy(Next(s, e))
  {
    TidyGoesOn(s, Next(s, e));
  }

  lemma MonitorStepTidy(s: State, e: Event)
    requires Tidy(s) && (e.step.Register? || e.step.Reap? || e.step.Deregister?)
    ensures Tidy(Next(s, e))
  {
    var t := Next(s, e);
    forall p | 0 <= p < |t.procs| ensures |t.pollers| == 1 && TidyProc(t, p) {
      assert TidyProc(s, p);
    }
  }

  lemma NextTidy(s: State, e: Event)
    requires Inv(s) && Tidy(s) && Orderly(e)
    ensures Tidy(Next(s, e))
  {
    match e.step
    case ClaimBatch(_, _) => ClaimTidy(s, e);
    case Spawn(k) => if HeadIs(s, k, Dispatch) { SpawnTidy(s, k); }
    case StartMonitor(_) => StartMonitorTidy(s, e);
    case RejectUnknown(_) => PopTidy(s, e);
    case SignalProcess(_) => PopTidy(s, e);
    case MissProcess(_) => MissTidy(s, e);
    case InterruptItem(_) => PopTidy(s, e);
    case FinishCancel(k) => if HeadIs(s, k, Finish) { FinishPops(s, e); }
    case Crash(k) => if k < |s.pollers| { CrashTidy(s, k); }
    case Register(_) => MonitorStepTidy(s, e);
    case Reap(_) => MonitorStepTidy(s, e);
    case Deregister(_) => MonitorStepTidy(s, e);
    case _ => ProcessStepTidy(s, e);
  }

  /** The poller looks for the process of a running handler between Popen and registration, and misses it. */
  predicate MissesInWindow(s: State, e: Event, p: nat) {
    && e.step == MissProcess(0) && HeadIs(s, 0, Cancel)
    && Runs(s, p) && s.procs[p].job == HeadJob(s, 0) && s.procs[p].watch == Unregistered
  }

  /** A cancellation of the process's job has been decided or carried out. */
  predicate Canceling(s: State, p: nat)
    requires |s.pollers| == 1 && Runs(s, p)
  {
    s.jobs[s.procs[p].job].row.status == Canceled || Item(s.procs[p].job, Finish) in s.pollers[0].batch
  }

  lemma MissIsInWindow(s: State, e: Event, p: nat)
    requires Inv(s) && Tidy(s) && Runs(s, p) && e.step == MissProcess(0) && HeadIs(s, 0, Cancel)
    requires s.procs[p].job == HeadJob(s, 0) && HeadJob(s, 0) !in s.pollers[0].running
    ensures MissesInWindow(s, e, p)
  {
    var batch := s.pollers[0].batch;
    assert ProcOk(s, p) && TidyProc(s, p) && PollerOk(s, 0);
    assert Item(s.procs[p].job, StartThread(p)) !in batch by {
      assert forall i :: 0 < i < |batch| ==> batch[i].job != batch[0].job;
    }
  }

  lemma ClaimsNoFinish(s: State, k: nat, ids: seq<nat>, now: int, item: Item)
    requires CanClaim(s, k, ids) && item in ClaimStep(s, k, ids, now).pollers[k].batch
    ensures item.task in {Dispatch, Cancel}
  {
  }

  /** Only the look-up puts a finishing task into a batch. */
  lemma FinishItemsComeFromMisses(s: State, e: Event, j: nat)
    requires Tidy(s) && |Next(s, e).pollers| == 1 && Item(j, Finish) in Next(s, e).pollers[0].batch
    ensures Item(j, Finish) in s.pollers[0].batch
            || (e.step == MissProcess(0) && HeadIs(s, 0, Cancel) && HeadJob(s, 0) == j && j !in s.pollers[0].running)
  {
    var batch, t := s.pollers[0].batch, Next(s, e);
    match e.step
    case ClaimBatch(k, ids) =>
      if CanClaim(s, k, ids) { ClaimsNoFinish(s, k, ids, e.now, Item(j, Finish)); }
    case FinishCancel(k) =>
      if HeadIs(s, k, Finish) { assert t.pollers[0].batch == batch[1..] && forall item :: item in batch[1..] ==> item in batch; }
    case _ =>
      FinishItemsElsewhere(s, e, j);
  }

  /** Retasking puts its task in front and leaves the rest. */
  lemma RetaskedItem(s: State, task: Task, item: Item)
    requires |s.pollers| == 1 && s.pollers[0].batch != [] && item in Retask(s, 0, task).pollers[0].batch
    ensures item in s.pollers[0].batch || item == Item(s.pollers[0].batch[0].job, task)
  {
    var batch := s.pollers[0].batch;
    assert Retask(s, 0, task).pollers[0].batch == [Item(batch[0].job, task)] + batch[1..];
    assert batch == [batch[0]] + batch[1..];
  }

  lemma RetaskingItems(s: State, e: Event, j: nat)
    requires |s.pollers| == 1 && (e.step.Spawn? || e.step.MissProcess? || e.step.ItemFails?)
    requires Item(j, Finish) in PollerNext(s, e).pollers[0].batch
    ensures Item(j, Finish) in s.pollers[0].batch
            || (e.step == MissProcess(0) && HeadIs(s, 0, Cancel) && HeadJob(s, 0) == j && j !in s.pollers[0].running)
  {
    if PollerNext(s, e) != s {
      var task := if e.step.Spawn? then StartThread(|s.procs|) else if e.step.MissProcess? then Finish else Fail;
      assert PollerNext(s, e).pollers == Retask(s, 0, task).pollers;
      RetaskedItem(s, task, Item(j, Finish));
    }
  }

  lemma PoppingItems(s: State, e: Event, item: Item)
    requires |s.pollers| == 1
    requires e.step.StartMonitor? || e.step.RejectUnknown? || e.step.SignalProcess? || e.step.InterruptItem? || e.step.Crash?
    requires item in PollerNext(s, e).pollers[0].batch
    ensures item in s.pollers[0].batch
  {
    var batch, after := s.pollers[0].batch, PollerNext(s, e).pollers[0].batch;
    assert after == batch || (batch != [] && after == batch[1..]) || after == [];
  }

  lemma OtherStepsKeepBatches(s: State, e: Event, item: Item)
    requires |s.pollers| == 1
    requires e.step.Register? || e.step.Reap? || e.step.MonitorFails? || e.step.Deregister?
    ensures |MonitorNext(s, e).pollers| == 1 && MonitorNext(s, e).pollers[0].batch == s.pollers[0].batch
  {
  }

  lemma ProcessesKeepBatches(s: State, e: Event)
    ensures ProcessNext(s, e).pollers == s.pollers
  {
  }

  lemma FinishItemsElsewhere(s: State, e: Event, j: nat)
    requires |s.pollers| == 1 && |Next(s, e).pollers| == 1 && Item(j, Finish) in Next(s, e).pollers[0].batch
    requires !e.step.ClaimBatch? && !e.step.FinishCancel?
    ensures Item(j, Finish) in s.pollers[0].batch
            || (e.step == MissProcess(0) && HeadIs(s, 0, Cancel) && HeadJob(s, 0) == j && j !in s.pollers[0].running)
  {
    match e.step
    case Submit(_) =>
    case AskCancel(_) =>
    case Spawn(_) => RetaskingItems(s, e, j);
    case MissProcess(_) => RetaskingItems(s, e, j);
    case ItemFails(_) => RetaskingItems(s, e, j);
    case StartMonitor(_) => PoppingItems(s, e, Item(j, Finish));
    case RejectUnknown(_) => PoppingItems(s, e, Item(j, Finish));
    case SignalProcess(_) => PoppingItems(s, e, Item(j, Finish));
    case InterruptItem(_) => PoppingItems(s, e, Item(j, Finish));
    case Crash(_) => PoppingItems(s, e, Item(j, Finish));
    case Register(_) => OtherStepsKeepBatches(s, e, Item(j, Finish));
    case Reap(_) => OtherStepsKeepBatches(s, e, Item(j, Finish));
    case MonitorFails(_) => OtherStepsKeepBatches(s, e, Item(j, Finish));
    case Deregister(_) => OtherStepsKeepBatches(s, e, Item(j, Finish));
    case _ => ProcessesKeepBatches(s, e);
  }

  /** A handler that runs after a step on a job being canceled was running before the step. */
  lemma RanBefore(s: State, e: Event, p: nat)
    requires Inv(s) && Tidy(s) && Runs(Next(s, e), p) && |Next(s, e).pollers| == 1 && Canceling(Next(s, e), p)
    ensures Runs(s, p) && Next(s, e).procs[p].job == s.procs[p].job
  {
    var t := Next(s, e);
    ProcsGoOn(s, e);
    if e.step == Begin(p) && At(s, p, Starting) {
      FreshHandlerIsNotCanceled(s, e, p);
    } else {
      NobodyElseStarts(s, e, p);
    }
  }

  /** A handler that has just started: its row is RUNNING and nobody is about to cancel it. */
  lemma FreshHandlerIsNotCanceled(s: State, e: Event, p: nat)
    requires Inv(s) && Tidy(s) && e.step == Begin(p) && At(s, p, Starting) && Runs(Next(s, e), p)
    ensures |Next(s, e).pollers| == 1 && !Canceling(Next(s, e), p)
  {
    var job := s.jobs[s.procs[p].job];
    assert ProcOk(s, p) && JobOk(job) && PollerOk(s, 0);
    RunningJobOk(job, p, e.now);
    assert job.row.status == Claimed;
    NoFinishForClaimed(s, s.procs[p].job);
  }

  lemma NoFinishForClaimed(s: State, j: nat)
    requires Inv(s) && |s.pollers| == 1 && j < |s.jobs|
    ensures Item(j, Finish) in s.pollers[0].batch ==> s.jobs[j].row.status in {CancelRequested, Canceled}
  {
    assert PollerOk(s, 0);
    if Item(j, Finish) in s.pollers[0].batch {
      var i :| 0 <= i < |s.pollers[0].batch| && s.pollers[0].batch[i] == Item(j, Finish);
      assert ItemOk(s, 0, s.pollers[0].batch[i]);
    }
  }

  lemma ProcsGoOn(s: State, e: Event)
    requires Inv(s)
    ensures |s.procs| <= |Next(s, e).procs| && |s.jobs| <= |Next(s, e).jobs|
    ensures forall q :: 0 <= q < |s.procs| ==> Next(s, e).procs[q].job == s.procs[q].job
  {
    NextEvolves(s, e);
  }

  /** Where a process was before a step that is not its own first one. */
  predicate PcFromBefore(s: State, t: State, p: nat) {
    p < |t.procs| && t.procs[p].pc == Handling ==> p < |s.procs| && s.procs[p].pc == Handling
  }

  lemma ProcessStepStartsNobody(s: State, e: Event, p: nat)
    requires e.step.Begin? ==> !(e.step.proc == p && At(s, p, Starting))
    ensures PcFromBefore(s, ProcessNext(s, e), p)
  {
  }

  lemma PollerStepStartsNobody(s: State, e: Event, p: nat)
    ensures PcFromBefore(s, PollerNext(s, e), p)
  {
  }

  lemma MonitorStepStartsNobody(s: State, e: Event, p: nat)
    ensures PcFromBefore(s, MonitorNext(s, e), p)
  {
  }

  /** Only its own first step brings a process to its handler. */
  lemma NobodyElseStarts(s: State, e: Event, p: nat)
    requires Inv(s) && Runs(Next(s, e), p) && !(e.step == Begin(p) && At(s, p, Starting))
    ensures Runs(s, p)
  {
    ProcessStepStartsNobody(s, e, p);
    PollerStepStartsNobody(s, e, p);
    MonitorStepStartsNobody(s, e, p);
    assert PcFromBefore(s, Next(s, e), p);
    assert ProcOk(s, p);
  }

  lemma CancelingBefore(s: State, e: Event, p: nat)
    requires Inv(s) && Tidy(s) && Orderly(e) && Runs(Next(s, e), p) && |Next(s, e).pollers| == 1 && Canceling(Next(s, e), p)
    ensures Runs(s, p) && (Canceling(s, p) || MissesInWindow(s, e, p))
  {
    RanBefore(s, e, p);
    var j := s.procs[p].job;
    if Next(s, e).jobs[j].row.status == Canceled {
      StepCancelsIff(s, e, p);
      assert forall i :: 0 <= i < |s.pollers[0].batch| ==> s.pollers[0].batch[i].task != Fail;
    } else {
      FinishItemsComeFromMisses(s, e, j);
      if Item(j, Finish) !in s.pollers[0].batch {
        MissIsInWindow(s, e, p);
      }
    }
  }

  lemma {:induction false} OrderlyRun(events: seq<Event>)
    requires forall i :: 0 <= i < |events| ==> Orderly(events[i])
    ensures Inv(Exec(Initial(1), events)) && Tidy(Exec(Initial(1), events))
    decreases |events|
  {
    InitialOk(1);
    if events != [] {
      var n := |events| - 1;
      OrderlyRun(events[..n]);
      ExecLast(Initial(1), events);
      NextKeeps(Exec(Initial(1), events[..n]), events[n]);
      NextTidy(Exec(Initial(1), events[..n]), events[n]);
    }
  }

  lemma ExecLast(s: State, events: seq<Event>)
    requires events != []
    ensures Exec(s, events) == Next(Exec(s, events[..|events| - 1]), events[|events| - 1])
  {
    var n, e := |events| - 1, events[|events| - 1];
    var t := Exec(s, events[..n]);
    ExecAppend(s, events[..n], [e]);
    assert events == events[..n] + [e];
    assert Exec(t, [e]) == Exec(Next(t, e), []) by { assert [e][1..] == []; }
  }

  /** At some point of the run the poller misses the process in its registration window. */
  predicate MissedInWindow(events: seq<Event>, p: nat) {
    exists n :: 0 <= n < |events| && MissesInWindow(Exec(Initial(1), events[..n]), events[n], p)
  }

  lemma MissedEarlier(events: seq<Event>, p: nat)
    requires events != [] && MissedInWindow(events[..|events| - 1], p)
    ensures MissedInWindow(events, p)
  {
    var before := events[..|events| - 1];
    var m :| 0 <= m < |before| && MissesInWindow(Exec(Initial(1), before[..m]), before[m], p);
    assert before[..m] == events[..m] && before[m] == events[m];
  }

  /**
   With one scheduler, and no failure of a batch item or a monitor, the registration window
   is the only cause: a job that is CANCELED while its handler runs was looked for earlier in
   the run, while the handler was already running and its process not yet registered.
   */
  lemma {:induction false} OnlyTheWindow(events: seq<Event>, p: nat)
    requires forall i :: 0 <= i < |events| ==> Orderly(events[i])
    requires var s := Exec(Initial(1), events); |s.pollers| == 1 && Runs(s, p) && Canceling(s, p)
    ensures MissedInWindow(events, p)
    decreases |events|
  {
    if events != [] {
      var n := |events| - 1;
      OrderlyRun(events[..n]);
      ExecLast(Initial(1), events);
      CancelingBefore(Exec(Initial(1), events[..n]), events[n], p);
      if !MissesInWindow(Exec(Initial(1), events[..n]), events[n], p) {
        OnlyTheWindow(events[..n], p);
        MissedEarlier(events, p);
      }
    }
  }

  // ---------- The registration window ----------

  function Early(step: Step): Event { Event(0, "", step) }

  lemma {:induction false} ExecFour(s: State, a: Event, b: Event, c: Event, d: Event)
    ensures Exec(s, [a, b, c, d]) == Next(Next(Next(Next(s, a), b), c), d)
  {
    assert [a, b, c, d][1..] == [b, c, d] && [b, c, d][1..] == [c, d] && [c, d][1..] == [d] && [d][1..] == [];
    var t := Next(Next(s, a), b);
    assert Exec(s, [a, b, c, d]) == Exec(Next(s, a), [b, c, d]) == Exec(t, [c, d]);
    assert Exec(t, [c, d]) == Exec(Next(t, c), [d]) == Exec(Next(Next(t, c), d), []);
  }

  /** One scheduler, idle but for this batch, that knows no running job; one job. */
  predicate Sole(s: State, batch: seq<Item>) {
    && |s.jobs| == 1 && |s.pollers| == 1
    && s.pollers[0].batch == batch && s.pollers[0].running == map[] && !s.pollers[0].crashed
  }

  predicate SoleProc(s: State, pc: Pc, watch: Watch) { |s.procs| == 1 && s.procs[0] == Proc(0, 0, pc, watch) }

  /** The handler of the only job runs; its process is not yet in the dictionary. */
  predicate InWindow(s: State) {
    Sole(s, []) && SoleProc(s, Handling, Unregistered) && s.jobs[0].row.status == Running
  }

  lemma ClaimsOnlyJob(s: State, e: Event)
    requires Sole(s, []) && e.step == ClaimBatch(0, [0]) && IsActionable(s.jobs[0].row)
    ensures Sole(Next(s, e), [ClaimItem(s.jobs[0], 0)]) && Next(s, e).procs == s.procs
    ensures Next(s, e).jobs[0] == ClaimJob(s.jobs[0], 0, e.now)
  {
    assert CanClaim(s, 0, [0]);
    assert 0 in [0];
  }

  lemma SpawnsOnlyJob(s: State, e: Event)
    requires Sole(s, [Item(0, Dispatch)]) && s.jobs[0].row.jobKey in JOB_DISPATCH && s.procs == [] && e.step == Spawn(0)
    ensures Sole(Next(s, e), [Item(0, StartThread(0))]) && SoleProc(Next(s, e), Starting, NoMonitor)
    ensures Next(s, e).jobs[0].row == s.jobs[0].row
  {
    assert HeadIs(s, 0, Dispatch);
  }

  lemma StartsMonitor(s: State, e: Event)
    requires Sole(s, [Item(0, StartThread(0))]) && SoleProc(s, Starting, NoMonitor) && e.step == StartMonitor(0)
    ensures Sole(Next(s, e), []) && SoleProc(Next(s, e), Starting, Unregistered) && Next(s, e).jobs == s.jobs
  {
    assert s.pollers[0].batch[0].task.StartThread?;
    assert s.pollers[0].batch[1..] == [];
  }

  lemma BeginsHandler(s: State, e: Event)
    requires Sole(s, []) && SoleProc(s, Starting, Unregistered) && e.step == Begin(0)
    requires s.jobs[0].row.status == Claimed && s.jobs[0].row.jobKey in JOB_DISPATCH
    ensures InWindow(Next(s, e))
  {
    assert MarkRunning(s.jobs[0].row, e.now).1 && MarkRunning(s.jobs[0].row, e.now).0.status == Running;
  }

  lemma WindowIsReachable(submit: Event) returns (events: seq<Event>)
    requires submit.step == Submit("run-tests")
    ensures InWindow(Exec(Initial(1), [submit] + events))
  {
    var claim, spawn, start, begin := Early(ClaimBatch(0, [0])), Early(Spawn(0)), Early(StartMonitor(0)), Early(Begin(0));
    var s1 := Next(Initial(1), submit);
    assert Sole(s1, []) && s1.procs == [] && s1.jobs[0] == NewJob("run-tests", None);
    ClaimsOnlyJob(s1, claim);
    var s2 := Next(s1, claim);
    SpawnsOnlyJob(s2, spawn);
    StartsMonitor(Next(s2, spawn), start);
    BeginsHandler(Next(Next(s2, spawn), start), begin);
    events := [claim, spawn, start, begin];
    ExecFour(s1, claim, spawn, start, begin);
    assert ([submit] + events)[1..] == events && ([submit] + events)[0] == submit;
  }

  lemma ReachableNext(s: State, e: Event)
    requires Reachable(s)
    ensures Reachable(Next(s, e))
  {
    var schedulers: nat, events :| s == Exec(Initial(schedulers), events);
    ExecLast(Initial(schedulers), events + [e]);
    assert (events + [e])[..|events|] == events;
    assert Next(s, e) == Exec(Initial(schedulers), events + [e]);
  }

  lemma AskMarksRequested(s: State, e: Event, j: nat)
    requires e.step == AskCancel(j) && j < |s.jobs| && s.jobs[j].row.status == Running
    ensures var t := Next(s, e);
            && t.pollers == s.pollers && t.procs == s.procs && |t.jobs| == |s.jobs| && t.jobs[j].row.status == CancelRequested
  {
    assert RequestCancel(s.jobs[j].row).1 && RequestCancel(s.jobs[j].row).0.status == CancelRequested;
  }

  lemma ClaimTakesRequested(s: State, e: Event, k: nat, j: nat)
    requires Idle(s, k) && j < |s.jobs| && s.jobs[j].row.status == CancelRequested && e.step == ClaimBatch(k, [j])
    ensures var t := Next(s, e);
            && t.procs == s.procs && |t.jobs| == |s.jobs| && t.jobs[j] == s.jobs[j]
            && HeadIs(t, k, Cancel) && HeadJob(t, k) == j
  {
    assert CanClaim(s, k, [j]);
  }

  /**
   In every reachable state: a running handler whose process an idle scheduler does not hold
   can be outrun. Four steps make its job CANCELED while it goes on running.
   */
  lemma CanceledWhileHandlerRuns(s: State, k: nat, p: nat) returns (events: seq<Event>)
    requires Reachable(s) && Idle(s, k) && Runs(s, p) && s.jobs[s.procs[p].job].row.status == Running && !Holds(s, k, p)
    ensures Runs(Exec(s, events), p)
    ensures var t := Exec(s, events); t.jobs[t.procs[p].job].row.status == Canceled
  {
    var j := s.procs[p].job;
    var ask, claim, miss, finish :=
      Early(AskCancel(j)), Early(ClaimBatch(k, [j])), Early(MissProcess(k)), Early(FinishCancel(k));
    var s1 := Next(s, ask);
    AskMarksRequested(s, ask, j);
    ReachableNext(s, ask);
    var s2 := Next(s1, claim);
    ClaimTakesRequested(s1, claim, k, j);
    ReachableNext(s1, claim);
    CanceledIffNotHeld(s2, k, p, miss, finish);
    events := [ask, claim, miss, finish];
    ExecFour(s, ask, claim, miss, finish);
  }
}
