/**
 The job queue as a protocol. Submitters, cancellers, pollers, one subprocess per dispatched
 job and one monitor thread per subprocess act on shared rows in any order. Every guarded
 UPDATE is one atomic step; a subprocess may die and a whole scheduler may crash at any point.
 */
module JobProtocol {
  import opened Wrappers
  import opened JobExecutions
  import opened JobRegistry

  datatype Actor = Api | Poller(poller: nat) | Subprocess(proc: nat) | Monitor(proc: nat)

  /** What became of a job's claim. */
  datatype Claim = Unclaimed | Queued(poller: nat) | Spawned(proc: nat)

  /**
   A row with the history of what was done about it: the statuses it went through, who
   started its handler, who moved it to a terminal status, which callbacks ran and by whom.
   */
  datatype Job = Job(
    row: Row, trace: seq<JobStatus>, claim: Claim, handlers: seq<Actor>, enteredBy: seq<Actor>,
    callbacks: seq<Callback>, notifiers: set<Actor>, followUps: seq<nat>, parent: Option<nat>)

  /** Where a poller stands with one row of its batch; only the head of a batch is being worked on. */
  datatype Task = Dispatch | StartThread(proc: nat) | Cancel | Finish | Fail

  datatype Item = Item(job: nat, task: Task)

  /** The batch in hand and the dictionary of running jobs of one scheduler. */
  datatype Scheduler = Scheduler(batch: seq<Item>, running: map<nat, nat>, crashed: bool)

  datatype Pc = Starting | Handling | Completing | Interrupting | CallingBack | Exited(clean: bool)

  /** The monitor thread: not started, started but not yet in the dictionary, waiting, leaving, gone. */
  datatype Watch = NoMonitor | Unregistered | Waiting | Deregistering | Done

  datatype Proc = Proc(job: nat, poller: nat, pc: Pc, watch: Watch)

  datatype State = State(jobs: seq<Job>, pollers: seq<Scheduler>, procs: seq<Proc>)

  datatype Step =
    | Submit(jobKey: string)
    | AskCancel(job: nat)
    | ClaimBatch(poller: nat, ids: seq<nat>)
    | Spawn(poller: nat)
    | StartMonitor(poller: nat)
    | RejectUnknown(poller: nat)
    | SignalProcess(poller: nat)
    | MissProcess(poller: nat)
    | FinishCancel(poller: nat)
    | ItemFails(poller: nat)
    | InterruptItem(poller: nat)
    | Crash(poller: nat)
    | Begin(proc: nat)
    | HandlerReturns(proc: nat)
    | HandlerRaises(proc: nat)
    | Complete(proc: nat)
    | Interrupt(proc: nat)
    | CallBack(proc: nat, submits: bool)
    | Leave(proc: nat)
    | Die(proc: nat)
    | Register(proc: nat)
    | Reap(proc: nat)
    | MonitorFails(proc: nat)
    | Deregister(proc: nat)

  /** A step with the clock reading and the error text it uses. */
  datatype Event = Event(now: int, message: string, step: Step)

  const POLL_BATCH_SIZE := 5

  function NewJob(jobKey: string, parent: Option<nat>): Job {
    Job(NewRow(jobKey), [Pending], Unclaimed, [], [], [], {}, [], parent)
  }

  // ---------- Updates that the steps are made of ----------

  function SetJob(s: State, j: nat, job: Job): State
    requires j < |s.jobs|
  {
    s.(jobs := s.jobs[j := job])
  }

  /** Outcome of a guarded UPDATE issued by an actor. */
  function Mark(job: Job, actor: Actor, outcome: (Row, bool)): Job {
    if !outcome.1 then job
    else job.(row := outcome.0,
              trace := if outcome.0.status == job.row.status then job.trace else job.trace + [outcome.0.status],
              enteredBy := if Terminal(outcome.0.status) then job.enteredBy + [actor] else job.enteredBy)
  }

  function SetPc(s: State, p: nat, pc: Pc): State
    requires p < |s.procs|
  {
    s.(procs := s.procs[p := s.procs[p].(pc := pc)])
  }

  function SetWatch(s: State, p: nat, watch: Watch): State
    requires p < |s.procs|
  {
    s.(procs := s.procs[p := s.procs[p].(watch := watch)])
  }

  function SetBatch(s: State, k: nat, batch: seq<Item>): State
    requires k < |s.pollers|
  {
    s.(pollers := s.pollers[k := s.pollers[k].(batch := batch)])
  }

  function SetRunning(s: State, k: nat, running: map<nat, nat>): State
    requires k < |s.pollers|
  {
    s.(pollers := s.pollers[k := s.pollers[k].(running := running)])
  }

  function Pop(s: State, k: nat): State
    requires k < |s.pollers| && s.pollers[k].batch != []
  {
    SetBatch(s, k, s.pollers[k].batch[1..])
  }

  function Retask(s: State, k: nat, task: Task): State
    requires k < |s.pollers| && s.pollers[k].batch != []
  {
    SetBatch(s, k, s.pollers[k].batch[0 := s.pollers[k].batch[0].(task := task)])
  }

  function CallbacksLeft(job: Job): nat {
    var all := |FinalCallbacks(job.row.jobKey)|;
    if |job.callbacks| < all then all - |job.callbacks| else 0
  }

  /** The next callback of a settled job; a score update is a new job, if submitting it works. */
  function CallNext(s: State, j: nat, actor: Actor, submits: bool): State
    requires j < |s.jobs| && CallbacksLeft(s.jobs[j]) > 0
  {
    var job := s.jobs[j];
    var callback := FinalCallbacks(job.row.jobKey)[|job.callbacks|];
    var called := job.(callbacks := job.callbacks + [callback], notifiers := job.notifiers + {actor});
    if callback == EnqueueScoreUpdate && job.row.status == Completed && submits then
      s.(jobs := s.jobs[j := called.(followUps := called.followUps + [|s.jobs|])] + [NewJob(SCORE_UPDATE, Some(j))])
    else SetJob(s, j, called)
  }

  function CallAll(s: State, j: nat, actor: Actor): (t: State)
    requires j < |s.jobs|
    ensures t.procs == s.procs && t.pollers == s.pollers && |t.jobs| >= |s.jobs|
    decreases CallbacksLeft(s.jobs[j])
  {
    if CallbacksLeft(s.jobs[j]) == 0 then s else CallAll(CallNext(s, j, actor, true), j, actor)
  }

  /** A guarded UPDATE followed, if it succeeded, by all callbacks in the same session. */
  function Finalize(s: State, j: nat, actor: Actor, outcome: (Row, bool)): (t: State)
    requires j < |s.jobs|
    ensures t.procs == s.procs && t.pollers == s.pollers
  {
    var marked := SetJob(s, j, Mark(s.jobs[j], actor, outcome));
    if outcome.1 then CallAll(marked, j, actor) else marked
  }

  // ---------- Steps of a scheduler ----------

  predicate CanClaim(s: State, k: nat, ids: seq<nat>) {
    && k < |s.pollers| && !s.pollers[k].crashed && s.pollers[k].batch == [] && |ids| <= POLL_BATCH_SIZE
    && (forall i :: 0 <= i < |ids| ==> ids[i] < |s.jobs| && IsActionable(s.jobs[ids[i]].row))
    && (forall i, j :: 0 <= i < j < |ids| ==> ids[i] != ids[j])
  }

  function ClaimJob(job: Job, k: nat, now: int): Job {
    if job.row.status == Pending then
      job.(row := ClaimRow(job.row, now), trace := job.trace + [Claimed], claim := Queued(k))
    else job
  }

  function ClaimItem(job: Job, j: nat): Item {
    Item(j, if job.row.status == Pending then Dispatch else Cancel)
  }

  function ClaimStep(s: State, k: nat, ids: seq<nat>, now: int): State
    requires CanClaim(s, k, ids)
  {
    s.(jobs := seq(|s.jobs|, j requires 0 <= j < |s.jobs| => if j in ids then ClaimJob(s.jobs[j], k, now) else s.jobs[j]),
       pollers := s.pollers[k := s.pollers[k].(batch :=
         seq(|ids|, i requires 0 <= i < |ids| => ClaimItem(s.jobs[ids[i]], ids[i])))])
  }

  /** The head of the batch is at this task and its row exists. */
  predicate HeadIs(s: State, k: nat, task: Task) {
    && k < |s.pollers| && !s.pollers[k].crashed && s.pollers[k].batch != []
    && s.pollers[k].batch[0].task == task && s.pollers[k].batch[0].job < |s.jobs|
  }

  function HeadJob(s: State, k: nat): nat
    requires k < |s.pollers| && s.pollers[k].batch != []
  {
    s.pollers[k].batch[0].job
  }

  /** Popen: from here on there is a process, not yet a monitor thread. */
  function SpawnStep(s: State, k: nat): State
    requires HeadIs(s, k, Dispatch)
  {
    var j, p := HeadJob(s, k), |s.procs|;
    State(s.jobs[j := s.jobs[j].(claim := Spawned(p))],
          Retask(s, k, StartThread(p)).pollers,
          s.procs + [Proc(j, k, Starting, NoMonitor)])
  }

  function CrashStep(s: State, k: nat): State
    requires k < |s.pollers|
  {
    State(s.jobs, s.pollers[k := Scheduler([], map[], true)],
          seq(|s.procs|, p requires 0 <= p < |s.procs| =>
            if s.procs[p].poller == k then s.procs[p].(watch := NoMonitor) else s.procs[p]))
  }

  function PollerNext(s: State, e: Event): State {
    match e.step
    case ClaimBatch(k, ids) =>
      if CanClaim(s, k, ids) then ClaimStep(s, k, ids, e.now) else s
    case Spawn(k) =>
      if HeadIs(s, k, Dispatch) && s.jobs[HeadJob(s, k)].row.jobKey in JOB_DISPATCH then SpawnStep(s, k) else s
    case StartMonitor(k) =>
      if k < |s.pollers| && s.pollers[k].batch != [] && s.pollers[k].batch[0].task.StartThread?
        && s.pollers[k].batch[0].task.proc < |s.procs| && !s.pollers[k].crashed
      then Pop(SetWatch(s, s.pollers[k].batch[0].task.proc, Unregistered), k) else s
    case RejectUnknown(k) =>
      if HeadIs(s, k, Dispatch) && s.jobs[HeadJob(s, k)].row.jobKey !in JOB_DISPATCH then
        var j := HeadJob(s, k);
        Pop(SetJob(s, j, Mark(s.jobs[j], Poller(k), MarkInterrupted(s.jobs[j].row, e.now, e.message))), k)
      else s
    case SignalProcess(k) =>
      if HeadIs(s, k, Cancel) && HeadJob(s, k) in s.pollers[k].running then Pop(s, k) else s
    case MissProcess(k) =>
      if HeadIs(s, k, Cancel) && HeadJob(s, k) !in s.pollers[k].running then Retask(s, k, Finish) else s
    case FinishCancel(k) =>
      if HeadIs(s, k, Finish) then
        var j := HeadJob(s, k);
        Finalize(Pop(s, k), j, Poller(k), MarkCanceled(s.jobs[j].row, e.now))
      else s
    case ItemFails(k) =>
      if k < |s.pollers| && s.pollers[k].batch != [] then Retask(s, k, Fail) else s
    case InterruptItem(k) =>
      if HeadIs(s, k, Fail) then
        var j := HeadJob(s, k);
        Pop(SetJob(s, j, Mark(s.jobs[j], Poller(k), MarkInterrupted(s.jobs[j].row, e.now, e.message))), k)
      else s
    case Crash(k) =>
      if k < |s.pollers| then CrashStep(s, k) else s
    case _ => s
  }

  // ---------- Steps of a subprocess ----------

  predicate At(s: State, p: nat, pc: Pc) {
    p < |s.procs| && s.procs[p].pc == pc && s.procs[p].job < |s.jobs|
  }

  /** Unknown kinds are failed without callbacks; otherwise the handler starts if the row can still run. */
  function BeginStep(s: State, p: nat, e: Event): State
    requires At(s, p, Starting)
  {
    var j := s.procs[p].job;
    var job := s.jobs[j];
    if job.row.jobKey !in JOB_DISPATCH then
      SetPc(SetJob(s, j, Mark(job, Subprocess(p), MarkInterrupted(job.row, e.now, e.message))), p, Exited(true))
    else if MarkRunning(job.row, e.now).1 then
      SetPc(SetJob(s, j, Mark(job, Subprocess(p), MarkRunning(job.row, e.now)).(handlers := job.handlers + [Subprocess(p)])),
            p, Handling)
    else SetPc(s, p, Exited(true))
  }

  /** An outcome is written; the callbacks are this process's if its UPDATE succeeded. */
  function SettleStep(s: State, p: nat, outcome: (Row, bool)): State
    requires p < |s.procs| && s.procs[p].job < |s.jobs|
  {
    var j := s.procs[p].job;
    SetPc(SetJob(s, j, Mark(s.jobs[j], Subprocess(p), outcome)), p, if outcome.1 then CallingBack else Exited(true))
  }

  function ProcessNext(s: State, e: Event): State {
    match e.step
    case Begin(p) => if At(s, p, Starting) then BeginStep(s, p, e) else s
    case HandlerReturns(p) => if At(s, p, Handling) then SetPc(s, p, Completing) else s
    case HandlerRaises(p) => if At(s, p, Handling) then SetPc(s, p, Interrupting) else s
    case Complete(p) =>
      if At(s, p, Completing) then SettleStep(s, p, MarkCompleted(s.jobs[s.procs[p].job].row, e.now)) else s
    case Interrupt(p) =>
      if At(s, p, Interrupting) then SettleStep(s, p, MarkInterrupted(s.jobs[s.procs[p].job].row, e.now, e.message)) else s
    case CallBack(p, submits) =>
      if At(s, p, CallingBack) && CallbacksLeft(s.jobs[s.procs[p].job]) > 0 then
        CallNext(s, s.procs[p].job, Subprocess(p), submits)
      else s
    case Leave(p) =>
      if At(s, p, CallingBack) && CallbacksLeft(s.jobs[s.procs[p].job]) == 0 then SetPc(s, p, Exited(true)) else s
    case Die(p) =>
      if p < |s.procs| && !s.procs[p].pc.Exited? then SetPc(s, p, Exited(false)) else s
    case _ => s
  }

  // ---------- Steps of a monitor thread ----------

  predicate Watched(s: State, p: nat, watch: Watch) {
    && p < |s.procs| && s.procs[p].watch == watch && s.procs[p].job < |s.jobs|
    && s.procs[p].poller < |s.pollers|
  }

  /** The safety net: a process that did not settle its row is written off, with callbacks. */
  function WriteOff(s: State, p: nat, e: Event): State
    requires p < |s.procs| && s.procs[p].job < |s.jobs|
  {
    var j := s.procs[p].job;
    SetWatch(Finalize(s, j, Monitor(p), MarkInterrupted(s.jobs[j].row, e.now, e.message)), p, Deregistering)
  }

  function MonitorNext(s: State, e: Event): State {
    match e.step
    case Register(p) =>
      if Watched(s, p, Unregistered) then
        var Proc(j, k, _, _) := s.procs[p];
        SetRunning(SetWatch(s, p, Waiting), k, s.pollers[k].running[j := p])
      else s
    case Reap(p) =>
      if Watched(s, p, Waiting) && s.procs[p].pc.Exited? then
        if s.procs[p].pc.clean then SetWatch(s, p, Deregistering) else WriteOff(s, p, e)
      else s
    case MonitorFails(p) =>
      if Watched(s, p, Waiting) then WriteOff(s, p, e) else s
    case Deregister(p) =>
      if Watched(s, p, Deregistering) then
        var Proc(j, k, _, _) := s.procs[p];
        SetRunning(SetWatch(s, p, Done), k, s.pollers[k].running - {j})
      else s
    case _ => s
  }

  // ---------- Runs ----------

  /** One attempted step; a step that is not possible in a state changes nothing. */
  function Next(s: State, e: Event): State {
    match e.step
    case Submit(jobKey) => s.(jobs := s.jobs + [NewJob(jobKey, None)])
    case AskCancel(j) =>
      if j < |s.jobs| then SetJob(s, j, Mark(s.jobs[j], Api, RequestCancel(s.jobs[j].row))) else s
    case ClaimBatch(_, _) => PollerNext(s, e)
    case Spawn(_) => PollerNext(s, e)
    case StartMonitor(_) => PollerNext(s, e)
    case RejectUnknown(_) => PollerNext(s, e)
    case SignalProcess(_) => PollerNext(s, e)
    case MissProcess(_) => PollerNext(s, e)
    case FinishCancel(_) => PollerNext(s, e)
    case ItemFails(_) => PollerNext(s, e)
    case InterruptItem(_) => PollerNext(s, e)
    case Crash(_) => PollerNext(s, e)
    case Register(_) => MonitorNext(s, e)
    case Reap(_) => MonitorNext(s, e)
    case MonitorFails(_) => MonitorNext(s, e)
    case Deregister(_) => MonitorNext(s, e)
    case _ => ProcessNext(s, e)
  }

  function Exec(s: State, events: seq<Event>): State
    decreases |events|
  {
    if events == [] then s else Exec(Next(s, events[0]), events[1..])
  }

  /** No jobs, no processes, any number of schedulers with nothing in hand. */
  function Initial(schedulers: nat): State {
    State([], seq(schedulers, _ => Scheduler([], map[], false)), [])
  }

  lemma {:induction false} ExecAppend(s: State, a: seq<Event>, b: seq<Event>)
    ensures Exec(s, a + b) == Exec(Exec(s, a), b)
    decreases |a|
  {
    if a == [] {
      assert [] + b == b;
    } else {
      ExecAppend(Next(s, a[0]), a[1..], b);
      assert (a + b)[1..] == a[1..] + b;
    }
  }
}
