/**
  What the steps of the running system add up to. A phase of the main loop, a break or an
  API-locked section that nobody interrupts can be run from every state in which its locks
  are free, and has exactly the effect that the methods of Mainloop, EventFile and AlarmMilli
  are proved to have.
 */
module Phases {
  import opened Platform
  import opened AlarmMilli
  import opened EventFile
  import opened Mainloop
  import opened MainloopSystem
  import opened SystemInvariant
  import opened SystemTheorems
  import opened LockProgress

  lemma OneMoreStep(s: State, s1: State, step: Step, n: nat)
    requires Leads(s, s1, n) && Enabled(s1, step) && !step.Tick?
    ensures Leads(s, Apply(s1, step), n + 1)
  {
    hide Apply, Enabled, Leads;
    LeadsNowhere(Apply(s1, step));
    LeadsFurther(s1, step, Apply(s1, step), 0);
    LeadsOn(s, s1, Apply(s1, step), n, 1);
  }

  lemma {:induction false} RunStaysReachable(s: State, steps: seq<Step>)
    requires Reachable(s) && Valid(s, steps)
    ensures Reachable(Run(s, steps))
    decreases steps
  {
    hide Reachable, Apply, Enabled;
    if steps != [] {
      ReachableExtends(s, steps[0]);
      RunStaysReachable(Apply(s, steps[0]), steps[1..]);
    }
  }

  lemma LeadsToReachable(s: State, s': State, n: nat)
    requires Reachable(s) && Leads(s, s', n)
    ensures Reachable(s')
  {
    hide Reachable;
    var steps: seq<Step> :| |steps| <= n && Timeless(steps) && Valid(s, steps) && Run(s, steps) == s';
    RunStaysReachable(s, steps);
  }

  // ---------- The main task ----------

  /** OpenThread code of the main task changes the alarm: in tasklets, in callbacks, or in the alarm's own callback. */
  lemma {:induction false} MainCommands(s: State, cs: seq<Command>) returns (s': State)
    requires s.main.pc.Tasklets? || s.main.pc.Callbacks? || (s.main.pc.AlarmDone? && s.main.fired)
    ensures Leads(s, s', |cs|) && s' == s.(alarm := ObeyAll(s.alarm, cs))
    decreases cs
  {
    hide Leads;
    if cs == [] {
      s' := s;
      LeadsNowhere(s);
    } else {
      var step := ByMain(ChangeAlarm(cs[0]));
      var s1 := Apply(s, step);
      s' := MainCommands(s1, cs[1..]);
      LeadsFurther(s, step, s', |cs| - 1);
    }
  }

  /** Tasklets and Update in one API-locked section: the context is the one `Mainloop.Update` fills. */
  lemma UpdatePhase(s: State, tasklets: seq<Command>, pending: bool) returns (s': State)
    requires s.main.pc.WantUpdate? && !s.apiTaken
    ensures Leads(s, s', |tasklets| + 3)
    ensures var alarm := ObeyAll(s.alarm, tasklets);
            && s' == s.(alarm := alarm,
                        main := s.main.(pc := WantRegister,
                                        context := Updated(FRESH_CONTEXT, s.fds, alarm, s.clockUs, pending)),
                        h := s'.h)
            && s'.h == s.h.(iteration := s.h.iteration + 1, sinceUpdate := 0, brokenSinceUpdate := 0,
                            sampleUs := s.clockUs, sampled := alarm, pending := pending)
  {
    hide Leads, Updated;
    LeadsNowhere(s);
    OneMoreStep(s, s, ByMain(LockForUpdate), 0);
    var s1 := Apply(s, ByMain(LockForUpdate));
    var s2 := MainCommands(s1, tasklets);
    LeadsOn(s, s1, s2, 1, |tasklets|);
    OneMoreStep(s, s2, ByMain(RunUpdate(pending)), |tasklets| + 1);
    var s3 := Apply(s2, ByMain(RunUpdate(pending)));
    OneMoreStep(s, s3, ByMain(UnlockAfterUpdate), |tasklets| + 2);
    s' := Apply(s3, ByMain(UnlockAfterUpdate));
  }

  /**
    From the call of select() to sleep: the semaphore is in the slot, and it has a token if it
    had one or the counter is nonzero, as `EventDevice.StartSelect` says.
   */
  lemma SelectPhase(s: State, semaphore: Semaphore, leftover: bool) returns (s': State)
    requires Inv(s) && s.main.pc.WantRegister? && !s.eventTaken
    ensures Leads(s, s', 4)
    ensures s' == s.(signal := Some(semaphore),
                     main := s.main.(pc := Asleep, semaphore := semaphore, woken := leftover || s.event.counter != 0,
                                     sleptFrom := s.clockUs),
                     h := s'.h)
    ensures s'.h == s.h.(epoch := s.h.epoch + 1, unreadAtStart := s.h.unread, late := 0, lateDone := 0)
  {
    hide Leads, Updated, Inv;
    LeadsNowhere(s);
    OneMoreStep(s, s, ByMain(LockEvent), 0);
    var s1 := Apply(s, ByMain(LockEvent));
    StepKeepsInv(s, ByMain(LockEvent));
    InvRegisters(s1);
    OneMoreStep(s, s1, ByMain(Register(semaphore, leftover)), 1);
    var s2 := Apply(s1, ByMain(Register(semaphore, leftover)));
    OneMoreStep(s, s2, ByMain(TestCounter), 2);
    var s3 := Apply(s2, ByMain(TestCounter));
    OneMoreStep(s, s3, ByMain(UnlockEvent), 3);
    s' := Apply(s3, ByMain(UnlockEvent));
  }

  lemma InvRegisters(s: State)
    requires Inv(s) && s.main.pc.Registering?
    ensures Selects(s.event, s.main.context.maxFd + 1, s.main.context.readFds)
  {
    AlwaysRegisters(s);
  }

  /** The end of the poll: the slot is empty again, and a wake-up by the token reports the event descriptor or not. */
  lemma WakePhase(s: State, cause: Wakeup, eventReady: bool) returns (s': State)
    requires s.main.pc.Asleep? && Enabled(s, ByMain(Wake(cause)))
    ensures Leads(s, s', 2)
    ensures s' == s.(signal := None,
                     main := s.main.(pc := WantProcess, sleptFull := cause.ByTimeout?, eventReady := eventReady))
  {
    hide Leads;
    LeadsNowhere(s);
    OneMoreStep(s, s, ByMain(Wake(cause)), 0);
    var s1 := Apply(s, ByMain(Wake(cause)));
    OneMoreStep(s, s1, ByMain(EndSelect(false, eventReady)), 1);
    s' := Apply(s1, ByMain(EndSelect(false, eventReady)));
  }

  /** A select() that fails ends the loop: the main task aborts and takes no further step. */
  lemma FailedSelectIsFinal(s: State, eventReady: bool, m: MainStep)
    requires s.main.pc.Ending?
    ensures Enabled(s, ByMain(EndSelect(true, eventReady)))
    ensures !Enabled(Apply(s, ByMain(EndSelect(true, eventReady))), ByMain(m))
  {
  }

  /** The event phase of Process: the counter is consumed if the event descriptor was reported. */
  lemma EventPhase(s: State) returns (s': State)
    requires s.main.pc.Processing? && (s.main.eventReady ==> !s.eventTaken)
    ensures Leads(s, s', 4)
    ensures s' == s.(event := if s.main.eventReady then Consumed(s.event, s.fds.event) else s.event,
                     main := s.main.(pc := Callbacks), h := s'.h)
    ensures s'.h == if s.main.eventReady then s.h.(unread := 0, readAt := s.h.iteration) else s.h
  {
    hide Leads, Consumed;
    LeadsNowhere(s);
    OneMoreStep(s, s, ByMain(ProcessEvent), 0);
    var s1 := Apply(s, ByMain(ProcessEvent));
    if s.main.eventReady {
      OneMoreStep(s, s1, ByMain(LockEvent), 1);
      var s2 := Apply(s1, ByMain(LockEvent));
      OneMoreStep(s, s2, ByMain(Consume), 2);
      var s3 := Apply(s2, ByMain(Consume));
      OneMoreStep(s, s3, ByMain(UnlockEvent), 3);
      s' := Apply(s3, ByMain(UnlockEvent));
    } else {
      s' := s1;
      LeadsWithin(s, s1, 1, 4);
    }
  }

  /** The alarm phase of Process, with the commands of the alarm's callback if it fires. */
  lemma AlarmPhase(s: State, callback: seq<Command>) returns (s': State)
    requires s.main.pc.Callbacks?
    ensures Leads(s, s', |callback| + 2)
    ensures var now := GetNow(s.clockUs);
            s' == s.(alarm := Processed(s.alarm, now, callback), apiTaken := false,
                     main := s.main.(pc := WantUpdate, fired := s.alarm.running && s.alarm.t0 + s.alarm.dt <= now))
  {
    hide Leads;
    LeadsNowhere(s);
    OneMoreStep(s, s, ByMain(ProcessAlarm), 0);
    var s1 := Apply(s, ByMain(ProcessAlarm));
    var s2 := s1;
    if s1.main.fired {
      s2 := MainCommands(s1, callback);
      LeadsOn(s, s1, s2, 1, |callback|);
    } else {
      LeadsWithin(s, s1, 1, |callback| + 1);
    }
    OneMoreStep(s, s2, ByMain(UnlockAfterProcess), |callback| + 1);
    s' := Apply(s2, ByMain(UnlockAfterProcess));
  }

  /** One Process: event, then the CLI and radio commands in `heard`, then the alarm, as in `Mainloop.Process`. */
  lemma ProcessPhase(s: State, heard: seq<Command>, callback: seq<Command>) returns (s': State)
    requires s.main.pc.WantProcess? && !s.apiTaken && (s.main.eventReady ==> !s.eventTaken)
    ensures Leads(s, s', |heard| + |callback| + 7)
    ensures var alarm, now := ObeyAll(s.alarm, heard), GetNow(s.clockUs);
            s' == s.(event := if s.main.eventReady then Consumed(s.event, s.fds.event) else s.event,
                     alarm := Processed(alarm, now, callback),
                     main := s.main.(pc := WantUpdate, fired := alarm.running && alarm.t0 + alarm.dt <= now),
                     h := s'.h)
    ensures s'.h == if s.main.eventReady then s.h.(unread := 0, readAt := s.h.iteration) else s.h
  {
    hide Leads, Consumed, Processed;
    LeadsNowhere(s);
    OneMoreStep(s, s, ByMain(LockForProcess), 0);
    var s1 := Apply(s, ByMain(LockForProcess));
    var s2 := EventPhase(s1);
    LeadsOn(s, s1, s2, 1, 4);
    var s3 := MainCommands(s2, heard);
    LeadsOn(s, s2, s3, 5, |heard|);
    s' := AlarmPhase(s3, callback);
    LeadsOn(s, s3, s', |heard| + 5, |callback| + 2);
  }

  // ---------- Other threads ----------

  lemma PutTwice(ts: seq<Thread>, i: nat, t: Thread, t': Thread)
    requires i < |ts|
    ensures ts[i := t][i := t'] == ts[i := t']
  {
  }

  lemma EnterBreak(s: State, i: nat) returns (s': State)
    requires i < |s.threads| && s.threads[i].pc.Idle? && !s.eventTaken
    ensures Leads(s, s', 2)
    ensures s' == s.(eventTaken := true, threads := s.threads[i := s.threads[i].(pc := Locked)])
  {
    hide Leads;
    LeadsNowhere(s);
    OneMoreStep(s, s, ByThread(i, CallBreak), 0);
    var s1 := Apply(s, ByThread(i, CallBreak));
    OneMoreStep(s, s1, ByThread(i, EnterEvent), 1);
    s' := Apply(s1, ByThread(i, EnterEvent));
    PutTwice(s.threads, i, s1.threads[i], s'.threads[i]);
  }

  /** The locked part of a break. */
  lemma BreakUpToCheck(s: State, i: nat) returns (s': State)
    requires Inv(s) && i < |s.threads| && s.threads[i].pc.Idle? && !s.eventTaken
    ensures Leads(s, s', 4)
    ensures s' == s.(event := s.event.(counter := (s.event.counter + 1) % 256), threads := s'.threads, h := s'.h)
    ensures s'.threads == s.threads[i := Thread(Checking, s.threads[i].inApi, false, s.h.iteration, s.h.epoch)]
    ensures s'.h == s.h.(unread := s.h.unread + 1, sinceUpdate := s.h.sinceUpdate + 1, late := s.h.late + 1)
  {
    IsAccepting(s);
    hide Leads, Inv, Accepts;
    var s1 := EnterBreak(s, i);
    s' := IncrementAndLeave(s1, i);
    PutTwice(s.threads, i, s1.threads[i], s'.threads[i]);
    LeadsOn(s, s1, s', 2, 2);
  }

  lemma IncrementAndLeave(s: State, i: nat) returns (s': State)
    requires i < |s.threads| && s.threads[i].pc.Locked? && Accepts(s.event, s.fds.event)
    ensures Leads(s, s', 2)
    ensures s' == s.(event := s.event.(counter := (s.event.counter + 1) % 256), eventTaken := false,
                     threads := s'.threads, h := s'.h)
    ensures s'.threads == s.threads[i := Thread(Checking, s.threads[i].inApi, false, s.h.iteration, s.h.epoch)]
    ensures s'.h == s.h.(unread := s.h.unread + 1, sinceUpdate := s.h.sinceUpdate + 1, late := s.h.late + 1)
  {
    hide Leads;
    LeadsNowhere(s);
    OneMoreStep(s, s, ByThread(i, Increment), 0);
    var s1 := Apply(s, ByThread(i, Increment));
    OneMoreStep(s, s1, ByThread(i, LeaveEvent), 1);
    s' := Apply(s1, ByThread(i, LeaveEvent));
  }

  lemma IsAccepting(s: State)
    requires Inv(s)
    ensures Accepts(s.event, s.fds.event)
  {
  }

  /** The unlocked part: a select() that is registered gets its token. */
  lemma CheckAndTrigger(s: State, i: nat) returns (s': State)
    requires Inv(s) && i < |s.threads| && s.threads[i].pc.Checking?
    ensures Leads(s, s', 3)
    ensures s' == Finish(s, i).(main := s.main.(woken := s.main.woken || InSelect(s.main.pc)))
  {
    SlotIsCurrent(s);
    hide Leads, Inv;
    LeadsNowhere(s);
    OneMoreStep(s, s, ByThread(i, CheckSignal), 0);
    s' := Apply(s, ByThread(i, CheckSignal));
    if s.signal.Some? {
      var s1 := s';
      s' := LoadAndTrigger(s1, i);
      PutTwice(s.threads, i, s1.threads[i], s'.threads[i]);
      LeadsOn(s, s1, s', 1, 2);
    } else {
      LeadsWithin(s, s', 1, 3);
    }
  }

  lemma LoadAndTrigger(s: State, i: nat) returns (s': State)
    requires i < |s.threads| && s.threads[i].pc.Loading? && InSelect(s.main.pc) && s.signal == Some(s.main.semaphore)
    ensures Leads(s, s', 2)
    ensures s' == Finish(s, i).(main := s.main.(woken := true))
  {
    hide Leads;
    LeadsNowhere(s);
    OneMoreStep(s, s, ByThread(i, LoadSignal), 0);
    var s1 := Apply(s, ByThread(i, LoadSignal));
    OneMoreStep(s, s1, ByThread(i, Trigger), 1);
    s' := Apply(s1, ByThread(i, Trigger));
    PutTwice(s.threads, i, s1.threads[i], s'.threads[i]);
  }

  lemma SlotIsCurrent(s: State)
    requires Inv(s)
    ensures s.signal == if InSelect(s.main.pc) then Some(s.main.semaphore) else None
  {
  }

  /**
    One call of `otSysMainloopBreak`: the counter goes up by one modulo 256, and a select()
    that is registered has its token.
   */
  lemma BreakPhase(s: State, i: nat) returns (s': State)
    requires Inv(s) && i < |s.threads| && s.threads[i].pc.Idle? && !s.eventTaken
    ensures Leads(s, s', 7)
    ensures s' == s.(event := s.event.(counter := (s.event.counter + 1) % 256),
                     main := s.main.(woken := s.main.woken || InSelect(s.main.pc)),
                     threads := s'.threads, h := s'.h)
    ensures s'.threads == s.threads[i := Thread(Idle, s.threads[i].inApi, false, s.h.iteration, s.h.epoch)]
    ensures s'.h == s.h.(unread := s.h.unread + 1, sinceUpdate := s.h.sinceUpdate + 1, late := s.h.late + 1,
                         brokenSinceUpdate := s.h.brokenSinceUpdate + 1, lateDone := s.h.lateDone + 1)
  {
    var s1 := BreakUpToCheck(s, i);
    hide Leads, Inv;
    LeadsKeepsInv(s, s1, 4);
    s' := CheckAndTrigger(s1, i);
    LeadsOn(s, s1, s', 4, 3);
  }

  lemma LeadsKeepsInv(s: State, s': State, n: nat)
    requires Inv(s) && Leads(s, s', n)
    ensures Inv(s')
  {
    hide Inv;
    var steps: seq<Step> :| |steps| <= n && Timeless(steps) && Valid(s, steps) && Run(s, steps) == s';
    RunKeepsInv(s, steps);
  }

  lemma {:induction false} ThreadCommands(s: State, i: nat, cs: seq<Command>) returns (s': State)
    requires i < |s.threads| && s.threads[i].pc.Idle? && s.threads[i].inApi
    ensures Leads(s, s', |cs|)
    ensures s' == s.(alarm := ObeyAll(s.alarm, cs),
                     threads := s.threads[i := s.threads[i].(dirty := s.threads[i].dirty || cs != [])])
    decreases cs
  {
    hide Leads;
    if cs == [] {
      s' := s;
      LeadsNowhere(s);
    } else {
      var step := ByThread(i, ChangeAlarmOutside(cs[0]));
      s' := ThreadCommands(Apply(s, step), i, cs[1..]);
      LeadsFurther(s, step, s', |cs| - 1);
    }
  }

  /** Another thread takes the API lock, changes the alarm and gives the lock back. */
  lemma ApiPhase(s: State, i: nat, cs: seq<Command>) returns (s': State)
    requires i < |s.threads| && s.threads[i].pc.Idle? && !s.threads[i].inApi && !s.apiTaken
    ensures Leads(s, s', |cs| + 3)
    ensures s' == s.(alarm := ObeyAll(s.alarm, cs),
                     threads := s.threads[i := s.threads[i].(dirty := s.threads[i].dirty || cs != [])])
  {
    hide Leads;
    LeadsNowhere(s);
    OneMoreStep(s, s, ByThread(i, CallLock), 0);
    var s1 := Apply(s, ByThread(i, CallLock));
    OneMoreStep(s, s1, ByThread(i, EnterApi), 1);
    var s2 := Apply(s1, ByThread(i, EnterApi));
    var s3 := ThreadCommands(s2, i, cs);
    LeadsOn(s, s2, s3, 2, |cs|);
    OneMoreStep(s, s3, ByThread(i, LeaveApi), |cs| + 2);
    s' := Apply(s3, ByThread(i, LeaveApi));
  }

  // ---------- Whole iterations ----------

  /**
    Unread writes that the counter shows are served at once: without any time passing, one
    iteration registers, finds its token, reads the file, obeys what tasklets and callbacks do
    to the alarm, and processes it.
   */
  lemma UnreadIsServedAtOnce(s: State, tasklets: seq<Command>, heard: seq<Command>, callback: seq<Command>)
    returns (s': State)
    requires Reachable(s) && s.main.pc.WantUpdate? && !s.apiTaken && !s.eventTaken
    requires s.h.unread % 256 != 0
    ensures Leads(s, s', |tasklets| + |heard| + |callback| + 16)
    ensures s'.main.pc.WantUpdate? && s'.h.iteration == s'.h.readAt == s.h.iteration + 1 && s'.h.unread == 0
    ensures var alarm, now := ObeyAll(s.alarm, tasklets + heard), GetNow(s.clockUs);
            && s' == s.(event := s.event.(counter := 0), alarm := Processed(alarm, now, callback),
                        main := s'.main, h := s'.h)
            && s'.main.fired == (alarm.running && alarm.t0 + alarm.dt <= now)
  {
    ReachableInv(s);
    IsAccepting(s);
    ObeyAllConcat(s.alarm, tasklets, heard);
    assert s.event.counter != 0;
    hide Leads, Inv, Reachable, Processed, Updated, ObeyAll, Obey;
    var s1 := UpdatePhase(s, tasklets, false);
    LeadsKeepsInv(s, s1, |tasklets| + 3);
    var s2 := SelectPhase(s1, 0, false);
    LeadsOn(s, s1, s2, |tasklets| + 3, 4);
    var s3 := WakePhase(s2, ByToken, true);
    LeadsOn(s, s2, s3, |tasklets| + 7, 2);
    s' := ProcessPhase(s3, heard, callback);
    LeadsOn(s, s3, s', |tasklets| + 9, |heard| + |callback| + 7);
  }

  /** The poll sleeps for the running alarm that Update saw; `clockUs` is past its timeout, in the same clock epoch. */
  predicate SleptFor(s: State, clockUs: nat) {
    && s.main.pc.Asleep? && !s.h.pending
    && s.alarm == s.h.sampled && s.alarm.running
    && clockUs >= s.main.sleptFrom + s.main.context.timeout.Micros()
    && Epoch(clockUs) == Epoch(s.h.sampleUs)
  }

  lemma SleptForIsDue(s: State, clockUs: nat)
    requires Inv(s) && SleptFor(s, clockUs)
    ensures s.alarm.t0 + s.alarm.dt <= GetNow(clockUs)
  {
    FullSleepReachesDeadline(s.alarm, s.h.sampleUs, clockUs);
  }

  lemma SleepEnds(s: State, us: nat) returns (s': State)
    requires Inv(s) && SleptFor(s, s.clockUs + us)
    ensures Leads(Apply(s, Tick(us)), s', 2)
    ensures s'.main.pc.WantProcess? && !s'.main.eventReady && s'.apiTaken == s.apiTaken
    ensures s'.alarm == s.alarm && s'.h == s.h
    ensures s'.alarm.running && s'.alarm.t0 + s'.alarm.dt <= GetNow(s'.clockUs)
  {
    SleptForIsDue(s, s.clockUs + us);
    hide Leads, Inv, GetNow, Epoch;
    s' := WakePhase(Apply(s, Tick(us)), ByTimeout, false);
  }

  lemma DueAlarmFires(a: AlarmState, now: uint32, callback: seq<Command>)
    requires a.running && a.t0 + a.dt <= now
    ensures Processed(ObeyAll(a, []), now, callback) == ObeyAll(AlarmState(a.t0, a.dt, false), callback)
    ensures ObeyAll(a, []) == a
  {
  }

  /** When the clock is past the timeout, the poll can end by it, and the alarm then fires before the next Update. */
  lemma FullSleepRuns(s: State, us: nat, callback: seq<Command>) returns (s': State)
    requires Reachable(s) && SleptFor(s, s.clockUs + us) && !s.apiTaken
    ensures Leads(Apply(s, Tick(us)), s', |callback| + 9)
    ensures s'.main.pc.WantUpdate? && s'.main.fired && s'.h == s.h
    ensures s'.alarm == ObeyAll(AlarmState(s.alarm.t0, s.alarm.dt, false), callback)
  {
    ReachableInv(s);
    hide Leads, Inv, Reachable, ObeyAll, Obey, Apply, SleptFor, Processed, GetNow;
    var s1 := SleepEnds(s, us);
    DueAlarmFires(s1.alarm, GetNow(s1.clockUs), callback);
    s' := ProcessPhase(s1, [], callback);
    LeadsOn(Apply(s, Tick(us)), s1, s', 2, |callback| + 7);
  }
}
