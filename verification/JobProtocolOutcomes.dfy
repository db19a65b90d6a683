/**
 How a job ends and why: which outcome follows from how its handler ended, and that over every
 run a recorded outcome has its cause among the events.
 */
module JobProtocolOutcomes {
  import opened Wrappers
  import opened JobExecutions
  import opened JobRegistry
  import opened JobProtocol
  import opened JobProtocolInvariant
  import opened JobProtocolRuns
  import opened JobProtocolCancel

  // ---------- From the end of the handler to the outcome ----------

  lemma ExecPair(s: State, a: Event, b: Event)
    ensures Exec(s, [a, b]) == Next(Next(s, a), b)
  {
    assert [a, b][1..] == [b] && [b][1..] == [];
    var t := Next(s, a);
    assert Exec(s, [a, b]) == Exec(t, [b]);
    assert Exec(t, [b]) == Exec(Next(t, b), []);
  }

  /** While a handler runs its row is RUNNING, asked to cancel, or already settled by somebody else. */
  lemma RowUnderHandler(s: State, p: nat)
    requires Reachable(s) && Runs(s, p)
    ensures var job := s.jobs[s.procs[p].job];
            && (job.row.status in {Running, CancelRequested} || Terminal(job.row.status))
            && (!Terminal(job.row.status) ==> job.enteredBy == [])
  {
    ReachableOk(s);
    assert ProcOk(s, p) && JobOk(s.jobs[s.procs[p].job]);
  }

  /** A process that has an outcome to write writes it and goes on to the callbacks, or leaves if the row refuses it. */
  lemma OutcomeWritten(s: State, p: nat, outcome: (Row, bool))
    requires p < |s.procs| && s.procs[p].job < |s.jobs|
    requires outcome.1 ==> Terminal(outcome.0.status) && s.jobs[s.procs[p].job].enteredBy == []
    ensures var j, t := s.procs[p].job, SettleStep(s, p, outcome);
            && |t.jobs| == |s.jobs| && |t.procs| == |s.procs|
            && if outcome.1 then t.jobs[j].row == outcome.0 && t.jobs[j].enteredBy == [Subprocess(p)] && t.procs[p].pc == CallingBack
               else t.jobs[j] == s.jobs[j] && t.procs[p].pc == Exited(true)
  {
  }

  /**
   A handler that returns: a RUNNING job becomes COMPLETED by its own process, which goes on to
   the callbacks; a cancel request is left standing and a settled row left alone.
   */
  lemma ReturningCompletes(s: State, p: nat, returning: Event, complete: Event)
    requires Reachable(s) && Runs(s, p) && returning.step == HandlerReturns(p) && complete.step == Complete(p)
    ensures var j, t := s.procs[p].job, Exec(s, [returning, complete]);
            && |t.jobs| == |s.jobs| && |t.procs| == |s.procs|
            && if s.jobs[j].row.status == Running then
                 && t.jobs[j].row == s.jobs[j].row.(status := Completed, completedAt := Some(complete.now))
                 && t.jobs[j].enteredBy == [Subprocess(p)] && t.procs[p].pc == CallingBack
               else t.jobs[j] == s.jobs[j] && t.procs[p].pc == Exited(true)
  {
    var row, t := s.jobs[s.procs[p].job].row, Next(s, returning);
    RowUnderHandler(s, p);
    TransitionTable(row, complete.now, "");
    OutcomeWritten(t, p, MarkCompleted(row, complete.now));
    assert Next(t, complete) == SettleStep(t, p, MarkCompleted(row, complete.now));
    ExecPair(s, returning, complete);
  }

  /**
   A handler that raises: a RUNNING job becomes ERROR, a job asked to cancel becomes CANCELED,
   both with the message and by its own process; a settled row is left alone.
   */
  lemma RaisingInterrupts(s: State, p: nat, raising: Event, interrupt: Event)
    requires Reachable(s) && Runs(s, p) && raising.step == HandlerRaises(p) && interrupt.step == Interrupt(p)
    ensures var j, t := s.procs[p].job, Exec(s, [raising, interrupt]);
            && |t.jobs| == |s.jobs| && |t.procs| == |s.procs|
            && if s.jobs[j].row.status in {Running, CancelRequested} then
                 && t.jobs[j].row == s.jobs[j].row.(
                      status := if s.jobs[j].row.status == Running then Error else Canceled,
                      completedAt := Some(interrupt.now), errorMessage := Some(interrupt.message))
                 && t.jobs[j].enteredBy == [Subprocess(p)] && t.procs[p].pc == CallingBack
               else t.jobs[j] == s.jobs[j] && t.procs[p].pc == Exited(true)
  {
    var row, t := s.jobs[s.procs[p].job].row, Next(s, raising);
    RowUnderHandler(s, p);
    TransitionTable(row, interrupt.now, interrupt.message);
    OutcomeWritten(t, p, MarkInterrupted(row, interrupt.now, interrupt.message));
    assert Next(t, interrupt) == SettleStep(t, p, MarkInterrupted(row, interrupt.now, interrupt.message));
    ExecPair(s, raising, interrupt);
  }

  /** The outcome of one ending of a handler cannot be written after the other. */
  lemma OtherOutcomeIsRefused(s: State, p: nat, returning: Event, raising: Event, complete: Event, interrupt: Event)
    requires Runs(s, p) && returning.step == HandlerReturns(p) && raising.step == HandlerRaises(p)
    requires complete.step == Complete(p) && interrupt.step == Interrupt(p)
    ensures Exec(s, [returning, interrupt]).jobs == s.jobs
    ensures Exec(s, [raising, complete]).jobs == s.jobs
  {
    ExecPair(s, returning, interrupt);
    ExecPair(s, raising, complete);
  }

  // ---------- Every recorded outcome has its cause ----------

  /** The job is as far settled as it was. */
  predicate SettledAsBefore(a: Job, b: Job) {
    b.row.status == a.row.status && b.enteredBy == a.enteredBy && b.row.jobKey == a.row.jobKey
  }

  /**
   What a step made of a job: nothing that settles it, an outcome of its own process at the
   point where that process writes it, or an end brought about by a scheduler or for want of a handler.
   */
  predicate Cause(s: State, e: Event, j: nat, b: Job)
    requires j < |s.jobs|
  {
    || SettledAsBefore(s.jobs[j], b)
    || !Terminal(b.row.status)
    || (e.step.Complete? && At(s, e.step.proc, Completing) && b.row.status == Completed
        && b.enteredBy == [Subprocess(e.step.proc)])
    || (e.step.Interrupt? && At(s, e.step.proc, Interrupting) && b.row.status in {Error, Canceled}
        && b.enteredBy == [Subprocess(e.step.proc)])
    || (b.row.status in {Error, Canceled} && |b.enteredBy| == 1 && (!b.enteredBy[0].Subprocess? || b.row.jobKey !in JOB_DISPATCH))
  }

  predicate Untouched(s: State, t: State) {
    |s.jobs| <= |t.jobs| && (forall j :: 0 <= j < |s.jobs| ==> SettledAsBefore(s.jobs[j], t.jobs[j])) && NewJobsWait(s, t)
  }

  /** Jobs that a step adds are not settled. */
  predicate NewJobsWait(s: State, t: State) { forall j :: |s.jobs| <= j < |t.jobs| ==> t.jobs[j].row.status == Pending }

  lemma {:induction false} CallAllUntouched(s: State, j: nat, actor: Actor)
    requires j < |s.jobs|
    ensures Untouched(s, CallAll(s, j, actor))
    decreases CallbacksLeft(s.jobs[j])
  {
    if CallbacksLeft(s.jobs[j]) > 0 {
      CallAllUntouched(CallNext(s, j, actor, true), j, actor);
    }
  }

  lemma InterruptedOutcome(row: Row, now: int, message: string)
    ensures var (r, ok) := MarkInterrupted(row, now, message);
            && r.jobKey == row.jobKey && (if ok then r.status in {Error, Canceled} else r == row)
            && (ok ==> !Terminal(row.status))
  {
    FirstAllowedIsAllowed(row.status, [Error, Canceled]);
    assert [Error, Canceled][0] == Error && [Error, Canceled][1..] == [Canceled];
  }

  /** At most one job is settled, by this actor, and not as COMPLETED. */
  predicate SettledBy(s: State, t: State, actor: Actor) {
    && |s.jobs| <= |t.jobs| && NewJobsWait(s, t)
    && forall i :: 0 <= i < |s.jobs| ==>
         || SettledAsBefore(s.jobs[i], t.jobs[i])
         || (t.jobs[i].row.status in {Error, Canceled} && t.jobs[i].enteredBy == [actor]
             && t.jobs[i].row.jobKey == s.jobs[i].row.jobKey)
  }

  /** Every job of the state after a step has its cause. */
  predicate Caused(s: State, e: Event, t: State) {
    && |s.jobs| <= |t.jobs| && NewJobsWait(s, t)
    && forall i :: 0 <= i < |s.jobs| ==> Cause(s, e, i, t.jobs[i])
  }

  lemma UntouchedIsCaused(s: State, e: Event, t: State)
    requires Untouched(s, t)
    ensures Caused(s, e, t)
  {
  }

  lemma SettledByIsCaused(s: State, e: Event, t: State, actor: Actor)
    requires SettledBy(s, t, actor) && !actor.Subprocess?
    ensures Caused(s, e, t)
  {
  }

  lemma InterruptSettles(s: State, j: nat, actor: Actor, now: int, message: string)
    requires Inv(s) && j < |s.jobs|
    ensures SettledBy(s, SetJob(s, j, Mark(s.jobs[j], actor, MarkInterrupted(s.jobs[j].row, now, message))), actor)
  {
    assert JobOk(s.jobs[j]);
    InterruptedOutcome(s.jobs[j].row, now, message);
  }

  lemma CancelSettles(s: State, j: nat, actor: Actor, now: int)
    requires Inv(s) && j < |s.jobs|
    ensures SettledBy(s, SetJob(s, j, Mark(s.jobs[j], actor, MarkCanceled(s.jobs[j].row, now))), actor)
  {
    assert JobOk(s.jobs[j]);
    FirstAllowedIsAllowed(s.jobs[j].row.status, [Canceled]);
    assert [Canceled][0] == Canceled;
  }

  lemma FinalizeSettles(s: State, j: nat, actor: Actor, outcome: (Row, bool))
    requires j < |s.jobs| && SettledBy(s, SetJob(s, j, Mark(s.jobs[j], actor, outcome)), actor)
    ensures SettledBy(s, Finalize(s, j, actor, outcome), actor)
  {
    var marked := SetJob(s, j, Mark(s.jobs[j], actor, outcome));
    if outcome.1 {
      CallAllUntouched(marked, j, actor);
      SettledThenUntouched(s, marked, CallAll(marked, j, actor), actor);
    }
  }

  lemma SettledThenUntouched(s: State, t: State, u: State, actor: Actor)
    requires SettledBy(s, t, actor) && Untouched(t, u) && |t.jobs| == |s.jobs|
    ensures SettledBy(s, u, actor)
  {
  }

  lemma MonitorStepCause(s: State, e: Event)
    requires Inv(s) && (e.step.Reap? || e.step.MonitorFails?)
    ensures Caused(s, e, MonitorNext(s, e))
  {
    var p := e.step.proc;
    var t := MonitorNext(s, e);
    if t.jobs == s.jobs {
      UntouchedIsCaused(s, e, t);
    } else {
      var j := s.procs[p].job;
      var outcome := MarkInterrupted(s.jobs[j].row, e.now, e.message);
      InterruptSettles(s, j, Monitor(p), e.now, e.message);
      FinalizeSettles(s, j, Monitor(p), outcome);
      assert t.jobs == Finalize(s, j, Monitor(p), outcome).jobs;
      SettledByIsCaused(s, e, t, Monitor(p));
    }
  }

  lemma FinishCancelCause(s: State, e: Event)
    requires Inv(s) && e.step.FinishCancel?
    ensures Caused(s, e, PollerNext(s, e))
  {
    var k := e.step.poller;
    if HeadIs(s, k, Finish) {
      var j, popped := HeadJob(s, k), Pop(s, k);
      CancelSettles(s, j, Poller(k), e.now);
      assert popped.jobs == s.jobs;
      assert SetJob(popped, j, Mark(popped.jobs[j], Poller(k), MarkCanceled(popped.jobs[j].row, e.now))).jobs
          == SetJob(s, j, Mark(s.jobs[j], Poller(k), MarkCanceled(s.jobs[j].row, e.now))).jobs;
      FinalizeSettles(popped, j, Poller(k), MarkCanceled(s.jobs[j].row, e.now));
      SettledByIsCaused(s, e, PollerNext(s, e), Poller(k));
    } else {
      UntouchedIsCaused(s, e, PollerNext(s, e));
    }
  }

  lemma HeadInterruptedCause(s: State, e: Event)
    requires Inv(s) && (e.step.RejectUnknown? || e.step.InterruptItem?)
    ensures Caused(s, e, PollerNext(s, e))
  {
    var k, t := e.step.poller, PollerNext(s, e);
    if t.jobs == s.jobs {
      UntouchedIsCaused(s, e, t);
    } else {
      InterruptSettles(s, HeadJob(s, k), Poller(k), e.now, e.message);
      SettledByIsCaused(s, e, t, Poller(k));
    }
  }

  /** Steps that settle no job. */
  lemma QuietStepCause(s: State, e: Event)
    requires e.step.Submit? || e.step.Spawn? || e.step.StartMonitor? || e.step.SignalProcess? || e.step.MissProcess?
             || e.step.ItemFails? || e.step.Crash? || e.step.Register? || e.step.Deregister?
    ensures Caused(s, e, Next(s, e))
  {
    UntouchedIsCaused(s, e, Next(s, e));
  }

  lemma QuietProcessStepCause(s: State, e: Event)
    requires e.step.HandlerReturns? || e.step.HandlerRaises? || e.step.Leave? || e.step.Die? || e.step.CallBack?
    ensures Caused(s, e, ProcessNext(s, e))
  {
    UntouchedIsCaused(s, e, ProcessNext(s, e));
  }

  lemma RequestStepCause(s: State, e: Event)
    requires e.step.AskCancel? || e.step.ClaimBatch?
    ensures Caused(s, e, Next(s, e))
  {
    if e.step.AskCancel? && e.step.job < |s.jobs| {
      FirstAllowedIsAllowed(s.jobs[e.step.job].row.status, [CancelRequested]);
      assert [CancelRequested][0] == CancelRequested;
    }
  }

  lemma UnknownKindCause(s: State, p: nat, e: Event)
    requires Inv(s) && At(s, p, Starting) && s.jobs[s.procs[p].job].row.jobKey !in JOB_DISPATCH
    ensures Caused(s, e, BeginStep(s, p, e))
  {
    var j, t := s.procs[p].job, BeginStep(s, p, e);
    InterruptSettles(s, j, Subprocess(p), e.now, e.message);
    assert SettledBy(s, t, Subprocess(p));
    forall i | 0 <= i < |s.jobs| ensures Cause(s, e, i, t.jobs[i]) {
      assert i != j ==> t.jobs[i] == s.jobs[i];
    }
  }

  lemma StartCause(s: State, p: nat, e: Event)
    requires At(s, p, Starting) && s.jobs[s.procs[p].job].row.jobKey in JOB_DISPATCH
    ensures Caused(s, e, BeginStep(s, p, e))
  {
    FirstAllowedIsAllowed(s.jobs[s.procs[p].job].row.status, [Running]);
    assert [Running][0] == Running;
  }

  lemma BeginCause(s: State, e: Event)
    requires Inv(s) && e.step.Begin?
    ensures Caused(s, e, ProcessNext(s, e))
  {
    var p := e.step.proc;
    if !At(s, p, Starting) {
      UntouchedIsCaused(s, e, s);
    } else if s.jobs[s.procs[p].job].row.jobKey !in JOB_DISPATCH {
      UnknownKindCause(s, p, e);
    } else {
      StartCause(s, p, e);
    }
  }

  lemma CompleteCause(s: State, e: Event)
    requires Inv(s) && e.step.Complete?
    ensures Caused(s, e, ProcessNext(s, e))
  {
    var p := e.step.proc;
    if At(s, p, Completing) {
      var row := s.jobs[s.procs[p].job].row;
      TransitionTable(row, e.now, "");
      OutcomeIsCause(s, e, p, MarkCompleted(row, e.now));
    } else {
      UntouchedIsCaused(s, e, s);
    }
  }

  lemma InterruptCause(s: State, e: Event)
    requires Inv(s) && e.step.Interrupt?
    ensures Caused(s, e, ProcessNext(s, e))
  {
    var p := e.step.proc;
    if At(s, p, Interrupting) {
      var row := s.jobs[s.procs[p].job].row;
      TransitionTable(row, e.now, e.message);
      OutcomeIsCause(s, e, p, MarkInterrupted(row, e.now, e.message));
    } else {
      UntouchedIsCaused(s, e, s);
    }
  }

  lemma OutcomeIsCause(s: State, e: Event, p: nat, outcome: (Row, bool))
    requires Inv(s) && p < |s.procs| && s.procs[p].job < |s.jobs|
    requires (e.step == Complete(p) && At(s, p, Completing)) || (e.step == Interrupt(p) && At(s, p, Interrupting))
    requires outcome.1 ==>
               && !Terminal(s.jobs[s.procs[p].job].row.status)
               && outcome.0.status in (if e.step.Complete? then {Completed} else {Error, Canceled})
    ensures Caused(s, e, SettleStep(s, p, outcome))
  {
    var j, t := s.procs[p].job, SettleStep(s, p, outcome);
    assert JobOk(s.jobs[j]);
    if outcome.1 {
      OutcomeWritten(s, p, outcome);
    }
    forall i | 0 <= i < |s.jobs| ensures Cause(s, e, i, t.jobs[i]) {
      assert i != j ==> t.jobs[i] == s.jobs[i];
    }
  }

  lemma NextIsCaused(s: State, e: Event)
    requires Inv(s)
    ensures Caused(s, e, Next(s, e))
  {
    match e.step
    case AskCancel(_) => RequestStepCause(s, e);
    case ClaimBatch(_, _) => RequestStepCause(s, e);
    case RejectUnknown(_) => HeadInterruptedCause(s, e);
    case InterruptItem(_) => HeadInterruptedCause(s, e);
    case FinishCancel(_) => FinishCancelCause(s, e);
    case Reap(_) => MonitorStepCause(s, e);
    case MonitorFails(_) => MonitorStepCause(s, e);
    case Begin(_) => BeginCause(s, e);
    case Complete(_) => CompleteCause(s, e);
    case Interrupt(_) => InterruptCause(s, e);
    case HandlerReturns(_) => QuietProcessStepCause(s, e);
    case HandlerRaises(_) => QuietProcessStepCause(s, e);
    case Leave(_) => QuietProcessStepCause(s, e);
    case Die(_) => QuietProcessStepCause(s, e);
    case CallBack(_, _) => QuietProcessStepCause(s, e);
    case _ => QuietStepCause(s, e);
  }

  /** A step of this kind is among the events. */
  predicate Happened(events: seq<Event>, step: Step) { exists i :: 0 <= i < |events| && events[i].step == step }

  /** Where a process stands after its handler tells how the handler ended. */
  predicate ProcExplained(proc: Proc, p: nat, events: seq<Event>) {
    && (proc.pc == Completing ==> Happened(events, HandlerReturns(p)))
    && (proc.pc == Interrupting ==> Happened(events, HandlerRaises(p)))
  }

  /**
   COMPLETED only by a process whose handler returned; ERROR or CANCELED by a process of a known
   kind only if its handler raised.
   */
  predicate OutcomeExplained(job: Job, events: seq<Event>) {
    && (job.row.status == Completed ==>
          && |job.enteredBy| == 1 && job.enteredBy[0].Subprocess?
          && Happened(events, HandlerReturns(job.enteredBy[0].proc)) && Happened(events, Complete(job.enteredBy[0].proc)))
    && (job.row.status in {Error, Canceled} && job.row.jobKey in JOB_DISPATCH && |job.enteredBy| == 1 && job.enteredBy[0].Subprocess? ==>
          Happened(events, HandlerRaises(job.enteredBy[0].proc)) && Happened(events, Interrupt(job.enteredBy[0].proc)))
  }

  predicate Explained(s: State, events: seq<Event>) {
    && (forall p :: 0 <= p < |s.procs| ==> ProcExplained(s.procs[p], p, events))
    && (forall j :: 0 <= j < |s.jobs| ==> OutcomeExplained(s.jobs[j], events))
  }

  lemma HappenedGrows(events: seq<Event>, e: Event, step: Step)
    ensures Happened(events + [e], step) <==> Happened(events, step) || e.step == step
  {
    var more := events + [e];
    assert more[|events|] == e && forall i :: 0 <= i < |events| ==> more[i] == events[i];
  }

  /** Only the end of its handler brings a process to the point where it writes the outcome. */
  predicate PcMovesOn(a: Pc, b: Pc, e: Event, p: nat) {
    && (b == Completing ==> a == Completing || e.step == HandlerReturns(p))
    && (b == Interrupting ==> a == Interrupting || e.step == HandlerRaises(p))
  }

  predicate PcsMoveOn(s: State, e: Event, t: State) {
    && |s.procs| <= |t.procs|
    && (forall p :: 0 <= p < |s.procs| ==> PcMovesOn(s.procs[p].pc, t.procs[p].pc, e, p))
    && (forall p :: |s.procs| <= p < |t.procs| ==> t.procs[p].pc == Starting)
  }

  lemma HandlerStepMoves(s: State, e: Event)
    requires e.step.Begin? || e.step.HandlerReturns? || e.step.HandlerRaises? || e.step.Die?
    ensures PcsMoveOn(s, e, ProcessNext(s, e))
  {
  }

  lemma OutcomeStepMoves(s: State, e: Event)
    requires e.step.Complete? || e.step.Interrupt? || e.step.CallBack? || e.step.Leave?
    ensures PcsMoveOn(s, e, ProcessNext(s, e))
  {
  }

  lemma PollerStepMoves(s: State, e: Event)
    ensures PcsMoveOn(s, e, PollerNext(s, e))
  {
  }

  lemma MonitorStepMoves(s: State, e: Event)
    ensures PcsMoveOn(s, e, MonitorNext(s, e))
  {
  }

  lemma StepMoves(s: State, e: Event)
    ensures PcsMoveOn(s, e, Next(s, e))
  {
    match e.step
    case Begin(_) => HandlerStepMoves(s, e);
    case HandlerReturns(_) => HandlerStepMoves(s, e);
    case HandlerRaises(_) => HandlerStepMoves(s, e);
    case Die(_) => HandlerStepMoves(s, e);
    case Complete(_) => OutcomeStepMoves(s, e);
    case Interrupt(_) => OutcomeStepMoves(s, e);
    case CallBack(_, _) => OutcomeStepMoves(s, e);
    case Leave(_) => OutcomeStepMoves(s, e);
    case Submit(_) =>
    case AskCancel(_) =>
    case _ =>
      PollerStepMoves(s, e);
      MonitorStepMoves(s, e);
  }

  lemma ProcStaysExplained(s: State, events: seq<Event>, e: Event, p: nat)
    requires Explained(s, events) && p < |Next(s, e).procs|
    ensures ProcExplained(Next(s, e).procs[p], p, events + [e])
  {
    StepMoves(s, e);
    HappenedGrows(events, e, HandlerReturns(p));
    HappenedGrows(events, e, HandlerRaises(p));
    if p < |s.procs| {
      assert ProcExplained(s.procs[p], p, events) && PcMovesOn(s.procs[p].pc, Next(s, e).procs[p].pc, e, p);
    }
  }

  lemma OutcomeGrows(job: Job, events: seq<Event>, e: Event)
    requires OutcomeExplained(job, events)
    ensures OutcomeExplained(job, events + [e])
  {
    if |job.enteredBy| == 1 && job.enteredBy[0].Subprocess? {
      var p := job.enteredBy[0].proc;
      HappenedGrows(events, e, HandlerReturns(p));
      HappenedGrows(events, e, HandlerRaises(p));
      HappenedGrows(events, e, Complete(p));
      HappenedGrows(events, e, Interrupt(p));
    }
  }

  lemma JobStaysExplained(s: State, events: seq<Event>, e: Event, j: nat)
    requires Inv(s) && Explained(s, events) && j < |Next(s, e).jobs|
    ensures OutcomeExplained(Next(s, e).jobs[j], events + [e])
  {
    NextIsCaused(s, e);
    if j < |s.jobs| {
      var b := Next(s, e).jobs[j];
      assert Cause(s, e, j, b) && OutcomeExplained(s.jobs[j], events);
      OutcomeGrows(s.jobs[j], events, e);
      if (e.step.Complete? && At(s, e.step.proc, Completing)) || (e.step.Interrupt? && At(s, e.step.proc, Interrupting)) {
        var p := e.step.proc;
        assert ProcExplained(s.procs[p], p, events);
        HappenedGrows(events, e, HandlerReturns(p));
        HappenedGrows(events, e, HandlerRaises(p));
        HappenedGrows(events, e, Complete(p));
        HappenedGrows(events, e, Interrupt(p));
      }
    }
  }

  lemma {:induction false} RunIsExplained(schedulers: nat, events: seq<Event>)
    ensures Inv(Exec(Initial(schedulers), events)) && Explained(Exec(Initial(schedulers), events), events)
    decreases |events|
  {
    InitialOk(schedulers);
    if events != [] {
      var n := |events| - 1;
      var s, e := Exec(Initial(schedulers), events[..n]), events[n];
      RunIsExplained(schedulers, events[..n]);
      ExecLast(Initial(schedulers), events);
      NextKeeps(s, e);
      assert events == events[..n] + [e];
      forall p | 0 <= p < |Next(s, e).procs| ensures ProcExplained(Next(s, e).procs[p], p, events) {
        ProcStaysExplained(s, events[..n], e, p);
      }
      forall j | 0 <= j < |Next(s, e).jobs| ensures OutcomeExplained(Next(s, e).jobs[j], events) {
        JobStaysExplained(s, events[..n], e, j);
      }
    }
  }

  /**
   Over every run: a COMPLETED job was settled by a process whose handler returned; a job of a
   known kind that its process settled as ERROR or CANCELED had a handler that raised.
   */
  lemma OutcomesHaveCauses(schedulers: nat, events: seq<Event>, j: nat)
    requires j < |Exec(Initial(schedulers), events).jobs|
    ensures var job := Exec(Initial(schedulers), events).jobs[j];
            && (job.row.status == Completed ==>
                  exists p :: job.enteredBy == [Subprocess(p)] && Happened(events, HandlerReturns(p)))
            && (forall p :: job.enteredBy == [Subprocess(p)] && job.row.status in {Error, Canceled} && job.row.jobKey in JOB_DISPATCH ==>
                  Happened(events, HandlerRaises(p)))
  {
    RunIsExplained(schedulers, events);
    var job := Exec(Initial(schedulers), events).jobs[j];
    assert OutcomeExplained(job, events);
    if job.row.status == Completed {
      assert job.enteredBy == [Subprocess(job.enteredBy[0].proc)];
    }
  }
}
