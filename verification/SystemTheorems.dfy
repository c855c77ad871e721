/**
  What holds in every reachable state of the running system: mutual exclusion, no lost
  wake-up, the promise of `otSysMainloopBreak`, timely re-arming and the full-sleep alarm.
 */
module SystemTheorems {
  import opened Platform
  import opened AlarmMilli
  import opened EventFile
  import opened Mainloop
  import opened MainloopSystem
  import opened SystemInvariant

  // ---------- Every reachable state satisfies the invariant ----------

  lemma InitInv(s: State)
    requires Init(s)
    ensures Inv(s)
  {
  }

  lemma TickKeepsInv(s: State, us: nat)
    requires Inv(s)
    ensures Inv(Apply(s, Tick(us)))
  {
  }

  lemma StepKeepsInv(s: State, step: Step)
    requires Inv(s) && Enabled(s, step)
    ensures Inv(Apply(s, step))
  {
    hide ApiInv, EventInv, DataInv, StampInv, BeforeInv, CountInv, TokenInv, AlarmInv, ReadInv, ApplyMain, ApplyThread;
    match step
    case ByMain(m) =>
      MainKeepsLocks(s, m);
      if m.Register? {
        RegisterKeepsInv(s, m);
      } else {
        MainKeepsData(s, m);
        MainKeepsCounts(s, m);
        MainKeepsToken(s, m);
      }
      MainKeepsAlarm(s, m);
      MainKeepsRead(s, m);
    case ByThread(i, t) =>
      ThreadKeepsLocks(s, i, t);
      ThreadKeepsData(s, i, t);
      ThreadKeepsCounts(s, i, t);
      ThreadKeepsToken(s, i, t);
      ThreadKeepsAlarm(s, i, t);
      ThreadKeepsRead(s, i, t);
    case Tick(us) =>
      TickKeepsInv(s, us);
  }

  lemma {:induction false} RunKeepsInv(s: State, steps: seq<Step>)
    requires Inv(s) && Valid(s, steps)
    ensures Inv(Run(s, steps))
    decreases steps
  {
    hide Inv, Enabled, Apply;
    if steps != [] {
      StepKeepsInv(s, steps[0]);
      RunKeepsInv(Apply(s, steps[0]), steps[1..]);
    }
  }

  lemma ReachableInv(s: State)
    requires Reachable(s)
    ensures Inv(s)
  {
    hide Inv, Apply, Init;
    var s0, steps :| Init(s0) && Valid(s0, steps) && Run(s0, steps) == s;
    InitInv(s0);
    RunKeepsInv(s0, steps);
  }

  // ---------- Mutual exclusion ----------

  /**
    At most one task is in an API-locked section and at most one holds the event lock; the
    main task holds no API lock from the call of select() to its return.
   */
  lemma MutualExclusion(s: State)
    requires Reachable(s)
    ensures forall i, j | 0 <= i < j < |s.threads| :: !(s.threads[i].inApi && s.threads[j].inApi)
    ensures forall i | 0 <= i < |s.threads| && s.threads[i].inApi :: !MainInApi(s.main.pc)
    ensures forall i, j | 0 <= i < j < |s.threads| :: !(ThreadInEvent(s.threads[i]) && ThreadInEvent(s.threads[j]))
    ensures forall i | 0 <= i < |s.threads| && ThreadInEvent(s.threads[i]) :: !MainInEvent(s.main.pc)
    ensures InPoll(s.main.pc) && s.apiTaken ==> exists i :: 0 <= i < |s.threads| && s.threads[i].inApi
  {
    ReachableInv(s);
    hide DataInv, StampInv, BeforeInv, CountInv, TokenInv, AlarmInv, ReadInv;
  }

  /** A task in a section has its lock. */
  lemma SectionsAreLocked(s: State)
    requires Inv(s)
    ensures (MainInApi(s.main.pc) ==> s.apiTaken) && (MainInEvent(s.main.pc) ==> s.eventTaken)
    ensures forall i :: 0 <= i < |s.threads| ==>
              (s.threads[i].inApi ==> s.apiTaken) && (ThreadInEvent(s.threads[i]) ==> s.eventTaken)
  {
    hide DataInv, StampInv, BeforeInv, CountInv, TokenInv, AlarmInv, ReadInv;
  }

  lemma MainChangesInSections(s: State, m: MainStep)
    requires MainEnabled(s, m)
    ensures var s' := ApplyMain(s, m);
            && (s'.alarm != s.alarm ==> MainInApi(s.main.pc))
            && (s'.event != s.event ==> MainInEvent(s.main.pc))
            && (s'.signal != s.signal ==> if s'.signal.Some? then s.main.pc.Registering? else s.main.pc.Ending?)
  {
    hide Updated, Processed, Consumed, Obey, Due, Selects;
  }

  lemma ThreadChangesInSections(s: State, i: nat, t: ThreadStep)
    requires i < |s.threads| && ThreadEnabled(s, s.threads[i], t)
    ensures var s' := ApplyThread(s, i, t);
            && (s'.alarm != s.alarm ==> s.threads[i].inApi)
            && (s'.event != s.event ==> ThreadInEvent(s.threads[i]))
            && s'.signal == s.signal
  {
    hide Obey, Written, Accepts;
  }

  /**
    The locks protect the data: the alarm changes only by a step of the task that holds the API
    lock, the event file only by one that holds the event lock. The semaphore slot is written
    by the main task alone; it is filled under the event lock and emptied without it.
   */
  lemma DataIsGuarded(s: State, step: Step)
    requires Reachable(s) && Enabled(s, step)
    ensures var s' := Apply(s, step);
            && (s'.alarm != s.alarm ==> s.apiTaken && match step
                  case ByMain(_) => MainInApi(s.main.pc)
                  case ByThread(i, _) => s.threads[i].inApi
                  case Tick(_) => false)
            && (s'.event != s.event ==> s.eventTaken && match step
                  case ByMain(_) => MainInEvent(s.main.pc)
                  case ByThread(i, _) => ThreadInEvent(s.threads[i])
                  case Tick(_) => false)
            && (s'.signal != s.signal ==>
                  step.ByMain? && if s'.signal.Some? then s.main.pc.Registering? && s.eventTaken else s.main.pc.Ending?)
  {
    ReachableInv(s);
    SectionsAreLocked(s);
    hide Inv, Reachable, ApplyMain, ApplyThread, MainEnabled, ThreadEnabled, ThreadInEvent;
    match step
    case ByMain(m) => MainChangesInSections(s, m);
    case ByThread(i, t) => ThreadChangesInSections(s, i, t);
    case Tick(_) =>
  }

  // ---------- Sequence ----------

  /** Both are the same step, up to what the environment chooses in it. */
  predicate SameMainStep(m: MainStep, m': MainStep) {
    match m
    case ChangeAlarm(_) => m'.ChangeAlarm?
    case RunUpdate(_) => m'.RunUpdate?
    case Register(_, _) => m'.Register?
    case Wake(_) => m'.Wake?
    case EndSelect(_, _) => m'.EndSelect?
    case _ => m == m'
  }

  /**
    Each task follows its own program: the main task has one next step, or a change of the
    alarm where OpenThread code runs; another thread has one next step while it waits for a
    lock or is inside a break.
   */
  lemma TasksAreSequential(s: State, a: Step, b: Step)
    requires Enabled(s, a) && Enabled(s, b)
    ensures a.ByMain? && b.ByMain? ==>
              SameMainStep(a.m, b.m) || (a.m.ChangeAlarm? != b.m.ChangeAlarm? && MainInApi(s.main.pc))
    ensures a.ByThread? && b.ByThread? && a.i == b.i ==> a == b || s.threads[a.i].pc.Idle?
  {
  }

  // ---------- Wake-ups ----------

  /** How a select() may sleep on although writes were unread when it registered. */
  predicate Masked(s: State) {
    s.h.unreadAtStart > 0 && s.h.unreadAtStart % 256 == 0
  }

  /**
    No lost wake-up, over every interleaving of any number of breaks: if the counter was
    nonzero at registration or anything was written since, the sleeping select() holds a
    token or a writer is still on its way to give it one: the slot names this select(), and a
    writer that has copied the slot since its increment holds the right semaphore.
   */
  lemma NoLostWakeup(s: State)
    requires Reachable(s) && s.main.pc.Asleep?
    requires s.h.unreadAtStart % 256 != 0 || s.h.late > 0
    ensures s.main.woken || BreakInFlight(s)
    ensures s.signal == Some(s.main.semaphore)
    ensures forall i | 0 <= i < |s.threads| && s.threads[i].pc.Triggering? && s.threads[i].epoch == s.h.epoch ::
              s.threads[i].pc.semaphore == Some(s.main.semaphore)
  {
    ReachableInv(s);
  }

  /**
    The promise of `otSysMainloopBreak`: once a break that followed the latest Update has
    returned, the poll is not left asleep, unless the unread writes at registration were a
    nonzero multiple of 256 and no break has finished since.
   */
  lemma BreakWakesPoll(s: State)
    requires Reachable(s) && s.main.pc.Asleep?
    requires s.h.brokenSinceUpdate > 0
    ensures s.main.woken || (Masked(s) && s.h.lateDone == 0)
  {
    ReachableInv(s);
  }

  /**
    What ends a sleeping poll: a token, at once; the timeout, exactly when the clock has gone
    past the start of the sleep by nothing if tasklets were pending or the alarm was due, else
    by what was left of the alarm that Update saw; or another descriptor.
   */
  lemma PollEndsIff(s: State)
    requires Reachable(s) && s.main.pc.Asleep?
    ensures Enabled(s, ByMain(Wake(ByToken))) <==> s.main.woken
    ensures var a, now := s.h.sampled, GetNow(s.h.sampleUs);
            Enabled(s, ByMain(Wake(ByTimeout))) <==>
              s.clockUs >= s.main.sleptFrom +
                (if s.h.pending then 0
                 else if !a.running then 0x7fff_ffff * 1_000_000
                 else if a.t0 + a.dt > now then (a.t0 + a.dt - now) * 1000
                 else 0)
    ensures Enabled(s, ByMain(Wake(ByOtherDescriptor)))
  {
    ReachableInv(s);
    PollCoverage(s.fds, s.h.sampled, s.h.sampleUs, s.h.pending);
    hide Updated;
  }

  /** When a Process that was told of the event is past its event phase, the last read was in this iteration. */
  lemma ProcessHasRead(s: State)
    requires Reachable(s) && s.main.eventReady && (s.main.pc.Callbacks? || s.main.pc.AlarmDone?)
    ensures s.h.readAt == s.h.iteration
  {
    ReachableInv(s);
  }

  /** The clock is read once per Update; a poll asked to sleep for the alarm ends at its deadline. */
  predicate SleepsToDeadline(s: State) {
    var now := GetNow(s.h.sampleUs);
    var ms := if s.alarm.t0 + s.alarm.dt > now then s.alarm.t0 + s.alarm.dt - now else 0;
    s.main.context.timeout.Micros() <= ms * 1000
  }

  /**
    Timely re-arm: threads change the alarm under the API lock and then call
    `otSysMainloopBreak`. Once those calls are over, a poll without a token sleeps for the
    present alarm, not for an earlier one, unless the unread writes at its registration were a
    nonzero multiple of 256.
   */
  lemma TimelyRearm(s: State)
    requires Reachable(s) && s.main.pc.Asleep? && !s.main.woken
    requires !SomeDirty(s) && !BreakInFlight(s) && !Masked(s)
    ensures s.alarm == s.h.sampled
    ensures s.alarm.running ==> SleepsToDeadline(s)
    ensures s.main.sleptFrom >= s.h.sampleUs
  {
    ReachableInv(s);
    PollCoverage(s.fds, s.h.sampled, s.h.sampleUs, s.h.pending);
  }

  // ---------- The alarm ----------

  /**
    A poll that slept its whole timeout for a running alarm is followed by that alarm firing
    in the same iteration, if nobody changed it and the 32-bit clock did not roll over.
   */
  lemma FullSleepFires(s: State)
    requires Reachable(s) && s.main.pc.Callbacks?
    requires s.main.sleptFull && !s.h.pending
    requires s.alarm == s.h.sampled && s.alarm.running
    requires Epoch(s.clockUs) == Epoch(s.h.sampleUs)
    ensures var s' := Apply(s, ByMain(ProcessAlarm)); s'.main.fired && !s'.alarm.running
  {
    ReachableInv(s);
    FullSleepReachesDeadline(s.alarm, s.h.sampleUs, s.clockUs);
  }
}
