/**
 The run thread of the cron scheduler against callers of shutdown and of reload. Testing,
 setting and clearing an event are atomic steps; anything may happen in between.
 */
module SchedulerShutdown {

  /** Where the run thread is. */
  datatype Pc =
    | TestStop        // head of the outer loop
    | Load            // a new generator is asked for the first time
    | Clear           // jobs obtained or not, the reload event is about to be cleared
    | Merge           // head of the generator's loop
    | TimedWait       // a batch was yielded; it is overdue, or waits for its time or a reload
    | StartJobs
    | Ended           // the generator is exhausted
    | WaitReload      // waiting for a reload, without a time limit
    | Exited

  /** How far a caller of shutdown has come: each call sets two events. */
  datatype Caller = Calling | Halfway | Finished

  datatype State = State(pc: Pc, stopping: bool, reload: bool, callers: seq<Caller>)

  /**
   What the run thread meets in a step: whether the generator has jobs, whether its round
   starts none of them, whether the batch is overdue already, and whether a wait has run out.
   */
  datatype Choice = Choice(more: bool, quiet: bool, overdue: bool, timeout: bool)

  datatype Event = Thread(choice: Choice) | Shutdown(caller: nat) | Reload

  /** An overdue batch starts without a look at the reload event. */
  function ThreadNext(s: State, c: Choice): State {
    match s.pc
    case TestStop => s.(pc := if s.stopping then Exited else Load)
    case Load => s.(pc := Clear)
    case Clear => s.(reload := false, pc := Merge)
    case Merge => s.(pc := if !c.more || s.stopping then Ended else if c.quiet then Merge else TimedWait)
    case TimedWait =>
      if c.overdue then s.(pc := StartJobs)
      else if s.reload then s.(pc := TestStop)
      else if c.timeout then s.(pc := StartJobs) else s
    case StartJobs => s.(pc := Merge)
    case Ended => s.(pc := if s.stopping then TestStop else WaitReload)
    case WaitReload => if s.reload then s.(pc := TestStop) else s
    case Exited => s
  }

  /** The first and second half of a shutdown; stopFirst is the order the program uses. */
  function ShutdownNext(stopFirst: bool, s: State, c: nat): State
    requires c < |s.callers|
  {
    match s.callers[c]
    case Calling => if stopFirst then s.(stopping := true, callers := s.callers[c := Halfway])
                    else s.(reload := true, callers := s.callers[c := Halfway])
    case Halfway => if stopFirst then s.(reload := true, callers := s.callers[c := Finished])
                    else s.(stopping := true, callers := s.callers[c := Finished])
    case Finished => s
  }

  function Next(stopFirst: bool, s: State, e: Event): State {
    match e
    case Thread(choice) => ThreadNext(s, choice)
    case Shutdown(c) => if c < |s.callers| then ShutdownNext(stopFirst, s, c) else s
    case Reload => s.(reload := true)
  }

  function Exec(stopFirst: bool, s: State, events: seq<Event>): State
    decreases |events|
  {
    if events == [] then s else Exec(stopFirst, Next(stopFirst, s, events[0]), events[1..])
  }

  function Initial(callers: nat): State { State(TestStop, false, false, seq(callers, _ => Calling)) }

  /** Some call of shutdown has returned. */
  predicate ShutDown(s: State) { Finished in s.callers }

  /**
   The order of the two sets and of the clear and the test is what this rests on: a finished
   shutdown has left the stop flag set, and a reload flag that is still set whenever the
   thread is at a wait.
   */
  predicate Inv(s: State) {
    && ((exists c :: 0 <= c < |s.callers| && s.callers[c] != Calling) ==> s.stopping)
    && (ShutDown(s) && s.pc in {TimedWait, WaitReload} ==> s.reload)
  }

  lemma NextKeepsInv(s: State, e: Event)
    requires Inv(s)
    ensures Inv(Next(true, s, e)) && (ShutDown(s) ==> ShutDown(Next(true, s, e)))
  {
    var t := Next(true, s, e);
    if e.Shutdown? && e.caller < |s.callers| {
      assert forall c :: 0 <= c < |s.callers| && c != e.caller ==> t.callers[c] == s.callers[c];
      if ShutDown(s) {
        var c :| 0 <= c < |s.callers| && s.callers[c] == Finished;
        assert t.callers[c] == Finished;
      }
    } else {
      assert t.callers == s.callers;
      assert ShutDown(s) ==> s.stopping;
    }
  }

  lemma {:induction false} ExecKeepsInv(s: State, events: seq<Event>)
    requires Inv(s)
    ensures Inv(Exec(true, s, events)) && (ShutDown(s) ==> ShutDown(Exec(true, s, events)))
    decreases |events|
  {
    if events != [] {
      NextKeepsInv(s, events[0]);
      ExecKeepsInv(Next(true, s, events[0]), events[1..]);
    }
  }

  /** The thread is at a wait that nothing but another caller can end. */
  predicate Stuck(s: State) { s.pc == WaitReload && !s.reload }

  /** No interleaving leaves the thread waiting for a reload once a shutdown has finished. */
  lemma NoLostShutdown(callers: nat, events: seq<Event>)
    ensures var s := Exec(true, Initial(callers), events); ShutDown(s) ==> s.stopping && !Stuck(s)
  {
    ExecKeepsInv(Initial(callers), events);
    var s := Exec(true, Initial(callers), events);
    if ShutDown(s) {
      var c :| 0 <= c < |s.callers| && s.callers[c] == Finished;
      assert s.callers[c] != Calling;
    }
  }

  lemma {:induction false} ExecSteps(s: State, a: Choice, b: Choice, c: Choice, d: Choice)
    ensures Exec(true, s, [Thread(a), Thread(b)]) == ThreadNext(ThreadNext(s, a), b)
    ensures Exec(true, s, [Thread(a), Thread(b), Thread(c), Thread(d)]) ==
            ThreadNext(ThreadNext(ThreadNext(ThreadNext(s, a), b), c), d)
  {
    var two, four := [Thread(a), Thread(b)], [Thread(a), Thread(b), Thread(c), Thread(d)];
    var s1 := ThreadNext(s, a);
    var s2 := ThreadNext(s1, b);
    var s3 := ThreadNext(s2, c);
    assert two[1..] == [Thread(b)] && [Thread(b)][1..] == [];
    assert four[1..] == [Thread(b), Thread(c), Thread(d)] && [Thread(b), Thread(c), Thread(d)][1..] == [Thread(c), Thread(d)];
    assert [Thread(c), Thread(d)][1..] == [Thread(d)] && [Thread(d)][1..] == [];
    assert Exec(true, s, two) == Exec(true, s1, [Thread(b)]) == Exec(true, s2, []);
    assert Exec(true, s, four) == Exec(true, s1, [Thread(b), Thread(c), Thread(d)]) == Exec(true, s2, [Thread(c), Thread(d)]);
    assert Exec(true, s2, [Thread(c), Thread(d)]) == Exec(true, s3, [Thread(d)]) == Exec(true, ThreadNext(s3, d), []);
  }

  /**
   A thread that is not stopped starts the batch it was given exactly if the batch is overdue, or
   its time comes and no reload has been asked for.
   */
  lemma BatchIsStarted(s: State, merge: Choice, wait: Choice)
    requires s.pc == Merge && !s.stopping && merge.more && !merge.quiet
    ensures var t := Exec(true, s, [Thread(merge), Thread(wait)]);
            && (t.pc == StartJobs <==> wait.overdue || (wait.timeout && !s.reload))
            && t.reload == s.reload && !t.stopping
  {
    ExecSteps(s, merge, wait, wait, wait);
  }

  /** A reload is honoured: a thread that waits, and is not stopped, asks for a new generator and has the flag cleared. */
  lemma ReloadIsHonoured(s: State, a: Choice, b: Choice, c: Choice, d: Choice)
    requires s.pc in {TimedWait, WaitReload} && s.reload && !s.stopping && !a.overdue
    ensures var t := Exec(true, s, [Thread(a), Thread(b), Thread(c), Thread(d)]); t.pc == Merge && !t.reload
    ensures Exec(true, s, [Thread(a), Thread(b)]).pc == Load
  {
    ExecSteps(s, a, b, c, d);
  }

  /** Thread steps left before it exits, once the stop flag is set. */
  function Distance(pc: Pc): nat {
    match pc
    case Exited => 0
    case TestStop => 1
    case Ended => 2
    case WaitReload => 2
    case Merge => 3
    case Clear => 4
    case StartJobs => 4
    case TimedWait => 5
    case Load => 5
  }

  function ThreadSteps(events: seq<Event>): nat {
    if events == [] then 0 else (if events[0].Thread? then 1 else 0) + ThreadSteps(events[1..])
  }

  /** After a shutdown every step of the thread brings it closer to its end; nobody sets it back. */
  lemma StepsCloser(s: State, e: Event)
    requires Inv(s) && ShutDown(s)
    ensures Distance(Next(true, s, e).pc) <= Distance(s.pc)
    ensures e.Thread? && s.pc != Exited ==> Distance(Next(true, s, e).pc) < Distance(s.pc)
  {
    var c :| 0 <= c < |s.callers| && s.callers[c] == Finished;
    assert s.callers[c] != Calling && s.stopping;
  }

  lemma {:induction false} ShutdownEnds(s: State, events: seq<Event>)
    requires Inv(s) && ShutDown(s)
    ensures Distance(Exec(true, s, events).pc) + ThreadSteps(events) <= Distance(s.pc) || Exec(true, s, events).pc == Exited
    decreases |events|
  {
    if events != [] {
      NextKeepsInv(s, events[0]);
      StepsCloser(s, events[0]);
      ShutdownEnds(Next(true, s, events[0]), events[1..]);
    }
  }

  lemma {:induction false} ExecAppend(stopFirst: bool, s: State, a: seq<Event>, b: seq<Event>)
    ensures Exec(stopFirst, s, a + b) == Exec(stopFirst, Exec(stopFirst, s, a), b)
    decreases |a|
  {
    if a == [] {
      assert a + b == b;
    } else {
      ExecAppend(stopFirst, Next(stopFirst, s, a[0]), a[1..], b);
      assert (a + b)[1..] == a[1..] + b;
    }
  }

  /** Once a shutdown has returned, the thread ends within five of its own steps, whatever else happens. */
  lemma ThreadExitsAfterShutdown(callers: nat, before: seq<Event>, after: seq<Event>)
    requires ShutDown(Exec(true, Initial(callers), before)) && ThreadSteps(after) >= 5
    ensures Exec(true, Initial(callers), before + after).pc == Exited
  {
    var s := Exec(true, Initial(callers), before);
    ExecKeepsInv(Initial(callers), before);
    ShutdownEnds(s, after);
    ExecAppend(true, Initial(callers), before, after);
  }

  /** Stopping is permanent and never happens without a caller: the thread ends only when asked to. */
  lemma {:induction false} EndsOnlyWhenAsked(stopFirst: bool, s: State, events: seq<Event>)
    requires forall i :: 0 <= i < |events| ==> !events[i].Shutdown?
    requires !s.stopping && s.pc != Exited
    ensures !Exec(stopFirst, s, events).stopping && Exec(stopFirst, s, events).pc != Exited
    decreases |events|
  {
    if events != [] {
      EndsOnlyWhenAsked(stopFirst, Next(stopFirst, s, events[0]), events[1..]);
    }
  }

  /**
   With the two sets swapped the shutdown can be lost: the reload flag is set and cleared
   before the stop flag is set, the thread saw neither, and no step of its own will free it.
   */
  lemma SwappedOrderLosesTheShutdown(choice: Choice) returns (events: seq<Event>)
    ensures var s := Exec(false, Initial(1), events);
            && ShutDown(s) && s.stopping && Stuck(s)
            && Exec(false, s, [Thread(choice)]) == s
  {
    var step := Thread(Choice(false, false, false, false));
    var s0 := Initial(1);
    var s1 := Next(false, s0, step);
    var s2 := Next(false, s1, Shutdown(0));
    var s3 := Next(false, s2, step);
    var s4 := Next(false, s3, step);
    var s5 := Next(false, s4, step);
    var s6 := Next(false, s5, step);
    var s7 := Next(false, s6, Shutdown(0));
    assert s2.callers[0] == Halfway && s7.callers[0] == Finished;
    events := [step, Shutdown(0), step, step, step, step, Shutdown(0)];
    assert events[1..] == [Shutdown(0), step, step, step, step, Shutdown(0)];
    assert events[1..][1..] == [step, step, step, step, Shutdown(0)];
    assert Exec(false, s0, events) == Exec(false, s2, [step, step, step, step, Shutdown(0)]);
    assert [step, step, step, step, Shutdown(0)][1..] == [step, step, step, Shutdown(0)];
    assert [step, step, step, Shutdown(0)][1..] == [step, step, Shutdown(0)];
    assert Exec(false, s2, [step, step, step, step, Shutdown(0)]) == Exec(false, s4, [step, step, Shutdown(0)]);
    assert [step, step, Shutdown(0)][1..] == [step, Shutdown(0)] && [step, Shutdown(0)][1..] == [Shutdown(0)];
    assert Exec(false, s4, [step, step, Shutdown(0)]) == Exec(false, s6, [Shutdown(0)]);
    assert [Shutdown(0)][1..] == [];
    assert Exec(false, s6, [Shutdown(0)]) == Exec(false, s7, []) == s7;
    assert [Thread(choice)][1..] == [];
    assert Exec(false, s7, [Thread(choice)]) == Exec(false, s7, []);
  }
}
