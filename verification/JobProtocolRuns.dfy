/** What holds over whole runs of the job protocol, whatever the interleaving. */
module JobProtocolRuns {
  import opened Wrappers
  import opened JobExecutions
  import opened JobRegistry
  import opened JobProtocol
  import opened JobProtocolInvariant

  // ---------- How a job can develop ----------

  /** Histories only grow, statuses only descend, and what is over stays as it is. */
  predicate JobEvolves(a: Job, b: Job) {
    && b.row.jobKey == a.row.jobKey && b.parent == a.parent && (a.claim.Spawned? ==> b.claim == a.claim)
    && a.trace <= b.trace && a.handlers <= b.handlers && a.enteredBy <= b.enteredBy
    && a.callbacks <= b.callbacks && a.followUps <= b.followUps
    && Rank(b.row.status) <= Rank(a.row.status)
    && (Terminal(a.row.status) ==> b.row == a.row)
    && (a.row.status == CancelRequested ==> b.row.status in {CancelRequested, Canceled})
    && (a.row.status !in {Pending, Claimed} ==> b.handlers == a.handlers)
  }

  predicate Evolves(s: State, t: State) {
    && |s.jobs| <= |t.jobs| && (forall j :: 0 <= j < |s.jobs| ==> JobEvolves(s.jobs[j], t.jobs[j]))
    && |s.procs| <= |t.procs|
    && (forall p :: 0 <= p < |s.procs| ==> t.procs[p].job == s.procs[p].job && t.procs[p].poller == s.procs[p].poller)
  }

  lemma JobEvolvesTransitive(a: Job, b: Job, c: Job)
    requires JobEvolves(a, b) && JobEvolves(b, c)
    ensures JobEvolves(a, c)
  {
  }

  lemma EvolvesTransitive(s: State, t: State, u: State)
    requires Evolves(s, t) && Evolves(t, u)
    ensures Evolves(s, u)
  {
    forall j | 0 <= j < |s.jobs| ensures JobEvolves(s.jobs[j], u.jobs[j]) {
      JobEvolvesTransitive(s.jobs[j], t.jobs[j], u.jobs[j]);
    }
  }

  lemma MarkEvolves(job: Job, actor: Actor, targets: seq<JobStatus>, values: Values)
    ensures JobEvolves(job, Mark(job, actor, Transition(job.row, targets, values)))
  {
    TransitionsDescend(job.row, targets, values);
  }

  lemma {:induction false} CallAllEvolves(s: State, j: nat, actor: Actor)
    requires j < |s.jobs|
    ensures Evolves(s, CallAll(s, j, actor))
    decreases CallbacksLeft(s.jobs[j])
  {
    if CallbacksLeft(s.jobs[j]) > 0 {
      var t := CallNext(s, j, actor, true);
      assert Evolves(s, t);
      CallAllEvolves(t, j, actor);
      EvolvesTransitive(s, t, CallAll(t, j, actor));
    }
  }

  lemma FinalizeEvolves(s: State, j: nat, actor: Actor, targets: seq<JobStatus>, values: Values)
    requires j < |s.jobs|
    ensures Evolves(s, Finalize(s, j, actor, Transition(s.jobs[j].row, targets, values)))
  {
    var outcome := Transition(s.jobs[j].row, targets, values);
    var t := SetJob(s, j, Mark(s.jobs[j], actor, outcome));
    MarkEvolves(s.jobs[j], actor, targets, values);
    if outcome.1 {
      CallAllEvolves(t, j, actor);
      EvolvesTransitive(s, t, CallAll(t, j, actor));
    }
  }

  /** A step that touches one job and no process evolves if the job does. */
  lemma OneJobEvolves(s: State, t: State, j: nat)
    requires j < |s.jobs| && |t.jobs| == |s.jobs| && t.jobs == s.jobs[j := t.jobs[j]] && JobEvolves(s.jobs[j], t.jobs[j])
    requires |t.procs| == |s.procs|
    requires forall p :: 0 <= p < |s.procs| ==> t.procs[p].job == s.procs[p].job && t.procs[p].poller == s.procs[p].poller
    ensures Evolves(s, t)
  {
  }

  lemma HeadInterruptedEvolves(s: State, k: nat, e: Event)
    requires HeadIs(s, k, Dispatch) || HeadIs(s, k, Fail)
    ensures var j := HeadJob(s, k);
            Evolves(s, Pop(SetJob(s, j, Mark(s.jobs[j], Poller(k), MarkInterrupted(s.jobs[j].row, e.now, e.message))), k))
  {
    var j := HeadJob(s, k);
    MarkEvolves(s.jobs[j], Poller(k), [Error, Canceled], Values(None, Some(e.now), Some(e.message)));
    OneJobEvolves(s, Pop(SetJob(s, j, Mark(s.jobs[j], Poller(k), MarkInterrupted(s.jobs[j].row, e.now, e.message))), k), j);
  }

  lemma ClaimEvolves(s: State, k: nat, ids: seq<nat>, now: int)
    requires Inv(s) && CanClaim(s, k, ids)
    ensures Evolves(s, ClaimStep(s, k, ids, now))
  {
    forall j | 0 <= j < |s.jobs| ensures JobEvolves(s.jobs[j], ClaimJob(s.jobs[j], k, now)) {
      assert JobOk(s.jobs[j]);
    }
  }

  lemma SpawnEvolves(s: State, k: nat)
    requires Inv(s) && HeadIs(s, k, Dispatch)
    ensures Evolves(s, SpawnStep(s, k))
  {
    assert PollerOk(s, k) && ItemOk(s, k, s.pollers[k].batch[0]);
  }

  /** Steps of a poller that write to no row. */
  lemma QuietStepEvolves(s: State, e: Event)
    requires e.step.StartMonitor? || e.step.SignalProcess? || e.step.MissProcess? || e.step.ItemFails? || e.step.Crash?
    ensures Evolves(s, PollerNext(s, e))
  {
  }

  lemma InterruptEvolves(s: State, e: Event)
    requires e.step.RejectUnknown? || e.step.InterruptItem?
    ensures Evolves(s, PollerNext(s, e))
  {
    var k := e.step.poller;
    if HeadIs(s, k, Dispatch) || HeadIs(s, k, Fail) {
      HeadInterruptedEvolves(s, k, e);
    }
  }

  lemma DispatchEvolves(s: State, e: Event)
    requires Inv(s) && e.step.Spawn?
    ensures Evolves(s, PollerNext(s, e))
  {
    if HeadIs(s, e.step.poller, Dispatch) {
      SpawnEvolves(s, e.step.poller);
    }
  }

  lemma ClaimBatchEvolves(s: State, e: Event)
    requires Inv(s) && e.step.ClaimBatch?
    ensures Evolves(s, PollerNext(s, e))
  {
    if CanClaim(s, e.step.poller, e.step.ids) {
      ClaimEvolves(s, e.step.poller, e.step.ids, e.now);
    }
  }

  lemma FinishCancelEvolves(s: State, e: Event)
    requires e.step.FinishCancel?
    ensures Evolves(s, PollerNext(s, e))
  {
    var k := e.step.poller;
    if HeadIs(s, k, Finish) {
      FinalizeEvolves(Pop(s, k), HeadJob(s, k), Poller(k), [Canceled], Values(None, Some(e.now), None));
    }
  }

  lemma BeginEvolves(s: State, p: nat, e: Event)
    requires At(s, p, Starting)
    ensures Evolves(s, BeginStep(s, p, e))
  {
    var job := s.jobs[s.procs[p].job];
    MarkEvolves(job, Subprocess(p), [Error, Canceled], Values(None, Some(e.now), Some(e.message)));
    MarkEvolves(job, Subprocess(p), [Running], Values(Some(e.now), None, None));
    FirstAllowedIsAllowed(job.row.status, [Running]);
  }

  lemma SettleEvolves(s: State, p: nat, targets: seq<JobStatus>, values: Values)
    requires p < |s.procs| && s.procs[p].job < |s.jobs|
    ensures Evolves(s, SettleStep(s, p, Transition(s.jobs[s.procs[p].job].row, targets, values)))
  {
    MarkEvolves(s.jobs[s.procs[p].job], Subprocess(p), targets, values);
    OneJobEvolves(s, SettleStep(s, p, Transition(s.jobs[s.procs[p].job].row, targets, values)), s.procs[p].job);
  }

  lemma OutcomeEvolves(s: State, e: Event)
    requires e.step.Complete? || e.step.Interrupt?
    ensures Evolves(s, ProcessNext(s, e))
  {
    var p := e.step.proc;
    if At(s, p, Completing) {
      SettleEvolves(s, p, [Completed], Values(None, Some(e.now), None));
    }
    if At(s, p, Interrupting) {
      SettleEvolves(s, p, [Error, Canceled], Values(None, Some(e.now), Some(e.message)));
    }
  }

  lemma CallBackEvolves(s: State, j: nat, actor: Actor, submits: bool)
    requires j < |s.jobs| && CallbacksLeft(s.jobs[j]) > 0
    ensures Evolves(s, CallNext(s, j, actor, submits))
  {
  }

  lemma ProcessNextEvolves(s: State, e: Event)
    requires e.step.Begin? || e.step.CallBack?
    ensures Evolves(s, ProcessNext(s, e))
  {
    match e.step
    case Begin(p) =>
      if At(s, p, Starting) { BeginEvolves(s, p, e); }
    case CallBack(p, submits) =>
      if At(s, p, CallingBack) && CallbacksLeft(s.jobs[s.procs[p].job]) > 0 {
        CallBackEvolves(s, s.procs[p].job, Subprocess(p), submits);
      }
  }

  lemma PcEvolves(s: State, e: Event)
    requires e.step.HandlerReturns? || e.step.HandlerRaises? || e.step.Leave? || e.step.Die?
    ensures Evolves(s, ProcessNext(s, e))
  {
  }

  lemma WriteOffEvolves(s: State, p: nat, e: Event)
    requires p < |s.procs| && s.procs[p].job < |s.jobs|
    ensures Evolves(s, WriteOff(s, p, e))
  {
    var j := s.procs[p].job;
    FinalizeEvolves(s, j, Monitor(p), [Error, Canceled], Values(None, Some(e.now), Some(e.message)));
    var t := Finalize(s, j, Monitor(p), MarkInterrupted(s.jobs[j].row, e.now, e.message));
    EvolvesTransitive(s, t, SetWatch(t, p, Deregistering));
  }

  /** A step that only moves a monitor. */
  lemma WatchEvolves(s: State, p: nat, watch: Watch)
    requires p < |s.procs|
    ensures Evolves(s, SetWatch(s, p, watch))
  {
  }

  lemma ReapEvolves(s: State, e: Event)
    requires e.step.Reap?
    ensures Evolves(s, MonitorNext(s, e))
  {
    var p := e.step.proc;
    if Watched(s, p, Waiting) {
      WriteOffEvolves(s, p, e);
      WatchEvolves(s, p, Deregistering);
      assert MonitorNext(s, e) in {s, WriteOff(s, p, e), SetWatch(s, p, Deregistering)};
    }
    assert Evolves(s, s);
  }

  lemma MonitorFailureEvolves(s: State, e: Event)
    requires e.step.MonitorFails?
    ensures Evolves(s, MonitorNext(s, e))
  {
    var p := e.step.proc;
    if Watched(s, p, Waiting) {
      WriteOffEvolves(s, p, e);
    } else {
      assert MonitorNext(s, e) == s && Evolves(s, s);
    }
  }

  lemma RegistrationEvolves(s: State, e: Event)
    requires e.step.Register? || e.step.Deregister?
    ensures Evolves(s, MonitorNext(s, e))
  {
  }

  lemma AskingEvolves(s: State, e: Event)
    requires e.step.Submit? || e.step.AskCancel?
    ensures Evolves(s, Next(s, e))
  {
    if e.step.AskCancel? && e.step.job < |s.jobs| {
      MarkEvolves(s.jobs[e.step.job], Api, [CancelRequested], Values(None, None, None));
    }
  }

  lemma NextEvolves(s: State, e: Event)
    requires Inv(s)
    ensures Evolves(s, Next(s, e))
  {
    match e.step
    case Submit(_) => AskingEvolves(s, e);
    case AskCancel(_) => AskingEvolves(s, e);
    case ClaimBatch(_, _) => ClaimBatchEvolves(s, e);
    case Spawn(_) => DispatchEvolves(s, e);
    case StartMonitor(_) => QuietStepEvolves(s, e);
    case RejectUnknown(_) => InterruptEvolves(s, e);
    case SignalProcess(_) => QuietStepEvolves(s, e);
    case MissProcess(_) => QuietStepEvolves(s, e);
    case FinishCancel(_) => FinishCancelEvolves(s, e);
    case ItemFails(_) => QuietStepEvolves(s, e);
    case InterruptItem(_) => InterruptEvolves(s, e);
    case Crash(_) => QuietStepEvolves(s, e);
    case Begin(_) => ProcessNextEvolves(s, e);
    case CallBack(_, _) => ProcessNextEvolves(s, e);
    case Complete(_) => OutcomeEvolves(s, e);
    case Interrupt(_) => OutcomeEvolves(s, e);
    case HandlerReturns(_) => PcEvolves(s, e);
    case HandlerRaises(_) => PcEvolves(s, e);
    case Leave(_) => PcEvolves(s, e);
    case Die(_) => PcEvolves(s, e);
    case Register(_) => RegistrationEvolves(s, e);
    case Deregister(_) => RegistrationEvolves(s, e);
    case Reap(_) => ReapEvolves(s, e);
    case MonitorFails(_) => MonitorFailureEvolves(s, e);
  }

  lemma {:induction false} ExecEvolves(s: State, events: seq<Event>)
    requires Inv(s)
    ensures Evolves(s, Exec(s, events))
    decreases |events|
  {
    if events != [] {
      NextKeeps(s, events[0]);
      NextEvolves(s, events[0]);
      ExecEvolves(Next(s, events[0]), events[1..]);
      EvolvesTransitive(s, Next(s, events[0]), Exec(s, events));
    }
  }

  /** A state that some run of some number of schedulers leads to. */
  ghost predicate Reachable(s: State) {
    exists schedulers: nat, events :: s == Exec(Initial(schedulers), events)
  }

  lemma ReachableOk(s: State)
    requires Reachable(s)
    ensures Inv(s)
  {
    var schedulers: nat, events :| s == Exec(Initial(schedulers), events);
    InitialOk(schedulers);
    ExecKeeps(Initial(schedulers), events);
  }

  // ---------- Main results ----------

  /** COMPLETED, ERROR and CANCELED are absorbing: the whole row and who settled it stay. */
  lemma TerminalIsFinal(s: State, events: seq<Event>, j: nat)
    requires Reachable(s) && j < |s.jobs| && Terminal(s.jobs[j].row.status)
    ensures var t := Exec(s, events);
            && j < |t.jobs| && t.jobs[j].row == s.jobs[j].row
            && t.jobs[j].enteredBy == s.jobs[j].enteredBy && t.jobs[j].handlers == s.jobs[j].handlers
  {
    ReachableOk(s);
    ExecEvolves(s, events);
    ExecKeeps(s, events);
    var t := Exec(s, events);
    assert JobOk(s.jobs[j]) && JobOk(t.jobs[j]) && JobEvolves(s.jobs[j], t.jobs[j]);
  }

  /** A job is settled by exactly one actor once it is terminal, and by none before. */
  lemma SettledByOneActor(s: State, j: nat)
    requires Reachable(s) && j < |s.jobs|
    ensures |s.jobs[j].enteredBy| == if Terminal(s.jobs[j].row.status) then 1 else 0
    ensures s.jobs[j].row.completedAt.Some? <==> Terminal(s.jobs[j].row.status)
  {
    ReachableOk(s);
    assert JobOk(s.jobs[j]);
  }

  /**
   Final callbacks run in order, none twice, only once the job is terminal, and only by the
   actor whose UPDATE made it so. A subprocess that settled its job and was not killed has
   run them all.
   */
  lemma CallbacksAtMostOnce(s: State, j: nat)
    requires Reachable(s) && j < |s.jobs|
    ensures var job := s.jobs[j];
            && job.callbacks <= FinalCallbacks(job.row.jobKey)
            && (forall a, b :: 0 <= a < b < |job.callbacks| ==> job.callbacks[a] != job.callbacks[b])
            && (job.callbacks != [] ==> Terminal(job.row.status))
            && (forall actor :: actor in job.notifiers ==> job.enteredBy == [actor])
            && (forall p | 0 <= p < |s.procs| && s.procs[p].job == j && s.procs[p].pc == Exited(true) ::
                  job.enteredBy == [Subprocess(p)] ==> job.callbacks == FinalCallbacks(job.row.jobKey))
  {
    ReachableOk(s);
    assert JobOk(s.jobs[j]);
    forall p | 0 <= p < |s.procs| && s.procs[p].job == j && s.procs[p].pc == Exited(true)
               && s.jobs[j].enteredBy == [Subprocess(p)]
      ensures s.jobs[j].callbacks == FinalCallbacks(s.jobs[j].row.jobKey)
    {
      assert ProcOk(s, p);
    }
  }

  /** A job is handed to at most one subprocess, and its handler starts at most once. */
  lemma HandlerAtMostOnce(s: State, j: nat)
    requires Reachable(s) && j < |s.jobs|
    ensures |s.jobs[j].handlers| <= 1
    ensures forall p, q :: 0 <= p < |s.procs| && 0 <= q < |s.procs| && s.procs[p].job == j && s.procs[q].job == j ==> p == q
    ensures forall p :: 0 <= p < |s.procs| && s.procs[p].job == j && s.procs[p].pc in {Handling, Completing, Interrupting} ==>
              s.jobs[j].handlers == [Subprocess(p)]
  {
    ReachableOk(s);
    assert JobOk(s.jobs[j]);
    forall p | 0 <= p < |s.procs| && s.procs[p].job == j ensures ProcOk(s, p) {
    }
  }

  /**
   Once asked for, a cancellation is never overtaken: the job stays CANCEL_REQUESTED or is
   CANCELED from then on, and no handler starts for it any more.
   */
  lemma CancelNeverOvertaken(s: State, request: Event, events: seq<Event>, j: nat)
    requires Reachable(s) && j < |s.jobs| && request.step == AskCancel(j)
    ensures var t := Exec(s, [request] + events);
            && j < |t.jobs|
            && if Terminal(s.jobs[j].row.status) then t.jobs[j].row == s.jobs[j].row
               else t.jobs[j].row.status in {CancelRequested, Canceled} && t.jobs[j].handlers == s.jobs[j].handlers
  {
    ReachableOk(s);
    NextKeeps(s, request);
    var asked := Next(s, request);
    FirstAllowedIsAllowed(s.jobs[j].row.status, [CancelRequested]);
    assert CancelRequested in [CancelRequested];
    ExecEvolves(asked, events);
    assert ([request] + events)[1..] == events && ([request] + events)[0] == request;
    assert JobEvolves(asked.jobs[j], Exec(asked, events).jobs[j]);
  }

  /**
   The statuses a job goes through start at PENDING and strictly descend in rank, so there
   are at most four changes in the life of a job.
   */
  lemma StatusesDescend(s: State, j: nat)
    requires Reachable(s) && j < |s.jobs|
    ensures var trace := s.jobs[j].trace;
            && 1 <= |trace| <= 5 && trace[0] == Pending && trace[|trace| - 1] == s.jobs[j].row.status
            && forall a, b :: 0 <= a < b < |trace| ==> Rank(trace[a]) > Rank(trace[b])
  {
    ReachableOk(s);
    assert JobOk(s.jobs[j]);
    DescendingIsShort(s.jobs[j].trace, 4);
  }

  lemma {:induction false} DescendingIsShort(trace: seq<JobStatus>, top: nat)
    requires Descending(trace) && (trace != [] ==> Rank(trace[0]) <= top)
    ensures |trace| <= top + 1
    decreases |trace|
  {
    if |trace| > 1 {
      assert Rank(trace[0]) > Rank(trace[1]);
      assert Descending(trace[1..]) by {
        forall i, j | 0 <= i < j < |trace[1..]| ensures Rank(trace[1..][i]) > Rank(trace[1..][j]) {
          assert trace[1..][i] == trace[i + 1] && trace[1..][j] == trace[j + 1];
        }
      }
      DescendingIsShort(trace[1..], top - 1);
    }
  }

  /**
   Follow-ups do not cascade: a job has at most one, only if it completed and its kind asks
   for it; a follow-up is a score update, belongs to that one job and has none of its own.
   */
  lemma FollowUpsDoNotCascade(s: State, j: nat)
    requires Reachable(s) && j < |s.jobs|
    ensures |s.jobs[j].followUps| <= 1 && (s.jobs[j].followUps != [] ==> FollowsUp(s.jobs[j].row))
    ensures forall c :: c in s.jobs[j].followUps ==>
              && c < |s.jobs| && s.jobs[c].parent == Some(j)
              && s.jobs[c].row.jobKey == SCORE_UPDATE && s.jobs[c].followUps == []
    ensures s.jobs[j].parent.Some? ==>
              s.jobs[j].parent.value < j && s.jobs[s.jobs[j].parent.value].followUps == [j]
  {
    ReachableOk(s);
    assert JobOk(s.jobs[j]) && FamilyOk(s, j);
    assert forall callback :: callback in s.jobs[j].callbacks ==> callback in FinalCallbacks(s.jobs[j].row.jobKey);
    forall c | c in s.jobs[j].followUps
      ensures c < |s.jobs| && s.jobs[c].parent == Some(j) && s.jobs[c].row.jobKey == SCORE_UPDATE && s.jobs[c].followUps == []
    {
      assert JobOk(s.jobs[c]);
      assert s.jobs[c].callbacks == [];
    }
  }

  /** A monitor that leaves finds its own process in the dictionary of its scheduler. */
  lemma DeregisterFindsItsEntry(s: State, p: nat)
    requires Reachable(s) && p < |s.procs| && s.procs[p].watch == Deregistering
    ensures var Proc(j, k, _, _) := s.procs[p];
            k < |s.pollers| && j in s.pollers[k].running && s.pollers[k].running[j] == p
  {
    ReachableOk(s);
    assert ProcOk(s, p);
  }

  /** A scheduler that is alive and has nothing in hand. */
  predicate Idle(s: State, k: nat) {
    k < |s.pollers| && !s.pollers[k].crashed && s.pollers[k].batch == []
  }

  /** Nobody has anything left to do about a job: neither the scheduler that claimed it nor its monitor. */
  predicate LeftAlone(s: State, j: nat)
    requires j < |s.jobs|
  {
    match s.jobs[j].claim
    case Unclaimed => true
    case Queued(k) => Idle(s, k)
    case Spawned(p) => p < |s.procs| && Idle(s, s.procs[p].poller) && s.procs[p].watch !in {Unregistered, Waiting}
  }

  /**
   Nothing is forgotten: a job whose scheduler is alive and idle and whose monitor, if any, is
   done is terminal or still waiting in the queue, whatever happened to other schedulers.
   */
  lemma NothingIsForgotten(s: State, j: nat)
    requires Reachable(s) && j < |s.jobs| && LeftAlone(s, j)
    ensures Terminal(s.jobs[j].row.status) || IsActionable(s.jobs[j].row)
  {
    ReachableOk(s);
    assert JobOk(s.jobs[j]) && Owned(s, j);
  }
}
