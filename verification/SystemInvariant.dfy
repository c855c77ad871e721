/**
  The inductive invariant of the running system: it holds initially and every step keeps it,
  so it holds in every reachable state.
 */
module SystemInvariant {
  import opened Platform
  import opened AlarmMilli
  import opened EventFile
  import opened Mainloop
  import opened MainloopSystem

  // ---------- Mutual exclusion ----------

  predicate MainInApi(pc: MainPc) {
    || pc.Tasklets? || pc.Prepared? || pc.Processing? || pc.WantRead? || pc.Reading?
    || pc.ReadDone? || pc.Callbacks? || pc.AlarmDone?
  }

  predicate MainInEvent(pc: MainPc) {
    pc.Registering? || pc.Testing? || pc.Registered? || pc.Reading? || pc.ReadDone?
  }

  predicate ThreadInApi(t: Thread) {
    t.inApi
  }

  predicate ThreadInEvent(t: Thread) {
    t.pc.Locked? || t.pc.Incremented?
  }

  /** A lock is taken exactly when somebody is in its section, and by no more than one task. */
  ghost predicate Exclusive(taken: bool, byMain: bool, ts: seq<Thread>, holds: Thread -> bool) {
    && (byMain ==> taken)
    && (forall i | 0 <= i < |ts| && holds(ts[i]) :: taken && !byMain)
    && (forall i, j | 0 <= i < |ts| && 0 <= j < |ts| && holds(ts[i]) && holds(ts[j]) :: i == j)
    && (taken ==> byMain || exists i :: 0 <= i < |ts| && holds(ts[i]))
  }

  ghost predicate ApiInv(s: State) {
    && Exclusive(s.apiTaken, MainInApi(s.main.pc), s.threads, ThreadInApi)
    && (forall i | 0 <= i < |s.threads| && s.threads[i].inApi :: !s.threads[i].pc.WaitApi?)
  }

  ghost predicate EventInv(s: State) {
    Exclusive(s.eventTaken, MainInEvent(s.main.pc), s.threads, ThreadInEvent)
  }

  // ---------- Data ----------

  /** From the call of select() to its return. */
  predicate InPoll(pc: MainPc) {
    pc.WantRegister? || pc.Registering? || InSelect(pc)
  }

  /** Update has run and select() has not registered yet. */
  predicate BeforeSelect(pc: MainPc) {
    pc.Prepared? || pc.WantRegister? || pc.Registering?
  }

  /** From select() returning to the alarm's turn in Process. */
  predicate AfterSelect(pc: MainPc) {
    || pc.WantProcess? || pc.Processing? || pc.WantRead? || pc.Reading? || pc.ReadDone?
    || pc.Callbacks?
  }

  function Prediction(s: State): Context {
    Updated(FRESH_CONTEXT, s.fds, s.h.sampled, s.h.sampleUs, s.h.pending)
  }

  ghost predicate DataInv(s: State) {
    var pc := s.main.pc;
    && s.fds.event == RESERVED_FD_MIN
    && s.event == Event(RESERVED_FD_MIN, true, s.h.unread % UINT8_RANGE)
    && s.signal == (if InSelect(pc) then Some(s.main.semaphore) else None)
    && (BeforeSelect(pc) || InSelect(pc) || AfterSelect(pc) ==>
          s.main.context == Prediction(s) && s.clockUs >= s.h.sampleUs)
    && (pc.Asleep? ==> s.main.sleptFrom >= s.h.sampleUs)
    && (pc.Ending? || AfterSelect(pc) ==>
          s.main.sleptFull ==> s.clockUs >= s.h.sampleUs + s.main.context.timeout.Micros())
  }

  // ---------- Wake-ups ----------

  /** Between its increment and the end of its break. */
  predicate Past(t: Thread) {
    t.pc.Incremented? || t.pc.Checking? || t.pc.Loading? || t.pc.Triggering?
  }

  predicate Late(t: Thread, epoch: nat) {
    Past(t) && t.epoch == epoch
  }

  /** A break that incremented after the current registration and has not returned. */
  ghost predicate BreakInFlight(s: State) {
    exists i :: 0 <= i < |s.threads| && Late(s.threads[i], s.h.epoch)
  }

  ghost predicate StampInv(s: State) {
    forall i :: 0 <= i < |s.threads| ==> s.threads[i].epoch <= s.h.epoch && s.threads[i].iteration <= s.h.iteration
  }

  ghost predicate BeforeInv(s: State) {
    BeforeSelect(s.main.pc) ==>
      && s.h.sinceUpdate <= s.h.unread
      && (s.h.brokenSinceUpdate > 0 ==> s.h.sinceUpdate > 0)
      && (forall i :: 0 <= i < |s.threads| && Past(s.threads[i]) && s.threads[i].iteration == s.h.iteration ==>
            s.h.sinceUpdate > 0)
  }

  ghost predicate CountInv(s: State) {
    InSelect(s.main.pc) ==>
      && s.h.unread == s.h.unreadAtStart + s.h.late
      && s.h.late <= s.h.sinceUpdate <= s.h.unreadAtStart + s.h.late
      && (s.main.pc.Testing? ==> s.h.late == 0)
      && (s.h.brokenSinceUpdate > s.h.lateDone ==> s.h.sinceUpdate > s.h.late)
      && (forall i | 0 <= i < |s.threads| && Past(s.threads[i]) && s.threads[i].iteration == s.h.iteration ::
            s.threads[i].epoch != s.h.epoch ==> s.h.sinceUpdate > s.h.late)
  }

  ghost predicate TokenInv(s: State) {
    InSelect(s.main.pc) ==>
      && (!s.main.pc.Testing? && s.h.unreadAtStart % UINT8_RANGE != 0 ==> s.main.woken)
      && (s.h.late > 0 ==> s.main.woken || BreakInFlight(s))
      && (s.h.lateDone > 0 ==> s.main.woken)
      && (forall i :: 0 <= i < |s.threads| && s.threads[i].pc.Triggering? && s.threads[i].epoch == s.h.epoch ==>
            s.threads[i].pc.semaphore == Some(s.main.semaphore))
  }

  // ---------- Reads ----------

  /** Process has passed its event phase. */
  predicate AfterEvent(pc: MainPc) {
    pc.ReadDone? || pc.Callbacks? || pc.AlarmDone?
  }

  ghost predicate ReadInv(s: State) {
    AfterEvent(s.main.pc) && s.main.eventReady ==> s.h.readAt == s.h.iteration
  }

  // ---------- The alarm seen by Update ----------

  /** A thread has changed the alarm and not yet called otSysMainloopBreak after it. */
  ghost predicate SomeDirty(s: State) {
    exists i :: 0 <= i < |s.threads| && s.threads[i].dirty
  }

  ghost predicate AlarmInv(s: State) {
    BeforeSelect(s.main.pc) || InSelect(s.main.pc) ==>
      s.alarm != s.h.sampled ==> SomeDirty(s) || s.h.sinceUpdate > 0
  }

  ghost predicate Inv(s: State) {
    ApiInv(s) && EventInv(s) && DataInv(s) && StampInv(s) && BeforeInv(s) && CountInv(s) && TokenInv(s) && AlarmInv(s)
    && ReadInv(s)
  }

  // ---------- Preservation, main task ----------

  /** The main task takes, gives back, or does not touch a lock. */
  lemma MainKeepsExclusive(taken: bool, byMain: bool, taken': bool, byMain': bool, ts: seq<Thread>,
                           holds: Thread -> bool)
    requires Exclusive(taken, byMain, ts, holds)
    requires || (taken' == taken && byMain' == byMain)
             || (!taken && taken' && byMain')
             || (byMain && !byMain' && !taken')
    ensures Exclusive(taken', byMain', ts, holds)
  {
  }

  lemma MainAtApi(s: State, m: MainStep)
    requires (MainInApi(s.main.pc) ==> s.apiTaken) && MainEnabled(s, m)
    ensures var s' := ApplyMain(s, m);
            || (s'.apiTaken == s.apiTaken && MainInApi(s'.main.pc) == MainInApi(s.main.pc))
            || (!s.apiTaken && s'.apiTaken && MainInApi(s'.main.pc))
            || (MainInApi(s.main.pc) && !MainInApi(s'.main.pc) && !s'.apiTaken)
  {
    hide Updated, Selects, Consumed, Processed, Obey, Due;
    match m
    case LockForUpdate =>
    case ChangeAlarm(_) =>
    case RunUpdate(_) =>
    case UnlockAfterUpdate =>
    case LockEvent =>
    case Register(_, _) =>
    case TestCounter =>
    case UnlockEvent =>
    case Wake(_) =>
    case EndSelect(_, _) =>
    case LockForProcess =>
    case ProcessEvent =>
    case Consume =>
    case ProcessAlarm =>
    case UnlockAfterProcess =>
  }

  lemma MainAtEvent(s: State, m: MainStep)
    requires (MainInEvent(s.main.pc) ==> s.eventTaken) && MainEnabled(s, m)
    ensures var s' := ApplyMain(s, m);
            || (s'.eventTaken == s.eventTaken && MainInEvent(s'.main.pc) == MainInEvent(s.main.pc))
            || (!s.eventTaken && s'.eventTaken && MainInEvent(s'.main.pc))
            || (MainInEvent(s.main.pc) && !MainInEvent(s'.main.pc) && !s'.eventTaken)
  {
    hide Updated, Selects, Consumed, Processed, Obey, Due;
    match m
    case LockForUpdate =>
    case ChangeAlarm(_) =>
    case RunUpdate(_) =>
    case UnlockAfterUpdate =>
    case LockEvent =>
    case Register(_, _) =>
    case TestCounter =>
    case UnlockEvent =>
    case Wake(_) =>
    case EndSelect(_, _) =>
    case LockForProcess =>
    case ProcessEvent =>
    case Consume =>
    case ProcessAlarm =>
    case UnlockAfterProcess =>
  }

  lemma MainKeepsLocks(s: State, m: MainStep)
    requires ApiInv(s) && EventInv(s) && MainEnabled(s, m)
    ensures var s' := ApplyMain(s, m); ApiInv(s') && EventInv(s')
  {
    var s' := ApplyMain(s, m);
    MainAtApi(s, m);
    MainAtEvent(s, m);
    hide Updated, Selects, Consumed, Processed, Obey, Due, MainInApi, MainInEvent, MainEnabled, Exclusive;
    assert s'.threads == s.threads;
    hide ApplyMain;
    MainKeepsExclusive(s.apiTaken, MainInApi(s.main.pc), s'.apiTaken, MainInApi(s'.main.pc), s.threads, ThreadInApi);
    MainKeepsExclusive(s.eventTaken, MainInEvent(s.main.pc), s'.eventTaken, MainInEvent(s'.main.pc), s.threads,
                       ThreadInEvent);
  }

  /** Update always leaves a context with which the event file takes the semaphore. */
  lemma AlwaysRegisters(s: State)
    requires DataInv(s) && s.main.pc.Registering?
    ensures Selects(s.event, s.main.context.maxFd + 1, s.main.context.readFds)
  {
    PollCoverage(s.fds, s.h.sampled, s.h.sampleUs, s.h.pending);
  }

  lemma RegisterKeepsInv(s: State, m: MainStep)
    requires DataInv(s) && StampInv(s) && BeforeInv(s) && CountInv(s) && TokenInv(s)
    requires m.Register? && MainEnabled(s, m)
    ensures var s' := ApplyMain(s, m); DataInv(s') && StampInv(s') && BeforeInv(s') && CountInv(s') && TokenInv(s')
  {
    AlwaysRegisters(s);
    hide Updated, Selects;
  }

  lemma MainKeepsData(s: State, m: MainStep)
    requires DataInv(s) && MainEnabled(s, m) && !m.Register?
    ensures DataInv(ApplyMain(s, m))
  {
    hide Updated, TimeoutFor, Processed, Obey, Due, DoRegister;
  }

  lemma MainKeepsCounts(s: State, m: MainStep)
    requires DataInv(s) && StampInv(s) && BeforeInv(s) && CountInv(s) && MainEnabled(s, m) && !m.Register?
    ensures var s' := ApplyMain(s, m); StampInv(s') && BeforeInv(s') && CountInv(s')
  {
    hide Updated, Processed, Obey, Due, DoRegister, DataInv;
  }

  lemma MainKeepsToken(s: State, m: MainStep)
    requires DataInv(s) && StampInv(s) && CountInv(s) && TokenInv(s) && MainEnabled(s, m) && !m.Register?
    ensures TokenInv(ApplyMain(s, m))
  {
    hide Updated, Processed, Obey, Due, DoRegister;
  }

  lemma MainKeepsAlarm(s: State, m: MainStep)
    requires AlarmInv(s) && MainEnabled(s, m)
    ensures AlarmInv(ApplyMain(s, m))
  {
    hide Updated, Selects, Consumed, Processed, Obey, Due;
  }

  lemma MainKeepsRead(s: State, m: MainStep)
    requires ReadInv(s) && MainEnabled(s, m)
    ensures ReadInv(ApplyMain(s, m))
  {
    hide Updated, Selects, Consumed, Processed, Obey, Due;
  }

  // ---------- Preservation, other threads ----------

  /** Another thread takes, gives back, or does not touch a lock. */
  lemma ThreadKeepsExclusive(taken: bool, taken': bool, byMain: bool, ts: seq<Thread>, holds: Thread -> bool, i: nat,
                             t: Thread)
    requires i < |ts| && Exclusive(taken, byMain, ts, holds)
    requires || (taken' == taken && holds(t) == holds(ts[i]))
             || (!taken && taken' && holds(t))
             || (holds(ts[i]) && !holds(t) && !taken')
    ensures Exclusive(taken', byMain, ts[i := t], holds)
  {
    var ts' := ts[i := t];
    if taken' && !byMain {
      if holds(t) {
        assert holds(ts'[i]);
      } else {
        var k :| 0 <= k < |ts| && holds(ts[k]);
        assert holds(ts'[k]);
      }
    }
  }

  lemma ThreadAtLocks(s: State, i: nat, t: ThreadStep)
    requires i < |s.threads| && ThreadEnabled(s, s.threads[i], t)
    requires s.threads[i].inApi ==> s.apiTaken && !s.threads[i].pc.WaitApi?
    requires ThreadInEvent(s.threads[i]) ==> s.eventTaken
    ensures var s', t0 := ApplyThread(s, i, t), s.threads[i];
            && |s'.threads| == |s.threads|
            && var t1 := s'.threads[i];
            && s'.main.pc == s.main.pc && s'.threads == s.threads[i := t1]
            && (|| (s'.apiTaken == s.apiTaken && t1.inApi == t0.inApi)
                || (!s.apiTaken && s'.apiTaken && t1.inApi)
                || (t0.inApi && !t1.inApi && !s'.apiTaken))
            && (|| (s'.eventTaken == s.eventTaken && ThreadInEvent(t1) == ThreadInEvent(t0))
                || (!s.eventTaken && s'.eventTaken && ThreadInEvent(t1))
                || (ThreadInEvent(t0) && !ThreadInEvent(t1) && !s'.eventTaken))
            && (t1.inApi ==> !t1.pc.WaitApi?)
  {
    hide Written, Accepts, Obey;
  }

  lemma ThreadKeepsLocks(s: State, i: nat, t: ThreadStep)
    requires ApiInv(s) && EventInv(s) && i < |s.threads| && ThreadEnabled(s, s.threads[i], t)
    ensures var s' := ApplyThread(s, i, t); ApiInv(s') && EventInv(s')
  {
    ThreadAtLocks(s, i, t);
    hide ApplyThread, ThreadEnabled, Exclusive;
    var s' := ApplyThread(s, i, t);
    ThreadKeepsExclusive(s.apiTaken, s'.apiTaken, MainInApi(s.main.pc), s.threads, ThreadInApi, i, s'.threads[i]);
    ThreadKeepsExclusive(s.eventTaken, s'.eventTaken, MainInEvent(s.main.pc), s.threads, ThreadInEvent, i,
                         s'.threads[i]);
  }

  lemma ThreadKeepsData(s: State, i: nat, t: ThreadStep)
    requires DataInv(s) && i < |s.threads| && ThreadEnabled(s, s.threads[i], t)
    ensures DataInv(ApplyThread(s, i, t))
  {
    if t == Increment {
      IncrementKeepsData(s, i);
    } else {
      OthersKeepData(s, i, t);
    }
    hide ApplyThread, DataInv;
  }

  lemma IncrementKeepsData(s: State, i: nat)
    requires DataInv(s) && i < |s.threads| && s.threads[i].pc.Locked?
    ensures DataInv(ApplyThread(s, i, Increment))
  {
    CounterFollows(s.h.unread);
    hide Updated, BeforeSelect, InSelect, AfterSelect;
  }

  lemma OthersKeepData(s: State, i: nat, t: ThreadStep)
    requires DataInv(s) && i < |s.threads| && ThreadEnabled(s, s.threads[i], t) && t != Increment
    ensures DataInv(ApplyThread(s, i, t))
  {
    hide Updated, Obey, DoIncrement;
  }

  lemma ThreadKeepsCounts(s: State, i: nat, t: ThreadStep)
    requires EventInv(s) && DataInv(s) && StampInv(s) && BeforeInv(s) && CountInv(s)
    requires i < |s.threads| && ThreadEnabled(s, s.threads[i], t)
    ensures var s' := ApplyThread(s, i, t); StampInv(s') && BeforeInv(s') && CountInv(s')
  {
    hide Updated, Prediction, Obey, Written;
  }

  /** A late writer stays late until it has given its token, and an increment makes one. */
  lemma SomebodyIsLate(s: State, i: nat, t: ThreadStep)
    requires DataInv(s) && TokenInv(s) && InSelect(s.main.pc)
    requires i < |s.threads| && ThreadEnabled(s, s.threads[i], t)
    ensures var s' := ApplyThread(s, i, t); s'.h.late > 0 ==> s'.main.woken || BreakInFlight(s')
  {
    hide Updated, Obey, Prediction, Written;
    var s' := ApplyThread(s, i, t);
    if s'.h.late > 0 && !s'.main.woken {
      if t == Increment {
        assert Late(s'.threads[i], s'.h.epoch);
      } else {
        var k :| 0 <= k < |s.threads| && Late(s.threads[k], s.h.epoch);
        assert Late(s'.threads[k], s'.h.epoch);
      }
    }
  }

  lemma ThreadKeepsToken(s: State, i: nat, t: ThreadStep)
    requires EventInv(s) && DataInv(s) && CountInv(s) && TokenInv(s)
    requires i < |s.threads| && ThreadEnabled(s, s.threads[i], t)
    ensures TokenInv(ApplyThread(s, i, t))
  {
    if InSelect(s.main.pc) {
      SomebodyIsLate(s, i, t);
    }
    hide Updated, Obey, Prediction, Written, BreakInFlight, Past;
  }

  lemma ThreadKeepsRead(s: State, i: nat, t: ThreadStep)
    requires ReadInv(s) && i < |s.threads| && ThreadEnabled(s, s.threads[i], t)
    ensures ReadInv(ApplyThread(s, i, t))
  {
    hide Written, Accepts, Obey;
  }

  lemma ThreadKeepsAlarm(s: State, i: nat, t: ThreadStep)
    requires DataInv(s) && AlarmInv(s) && i < |s.threads| && ThreadEnabled(s, s.threads[i], t)
    ensures AlarmInv(ApplyThread(s, i, t))
  {
    hide Updated, Obey;
    var s' := ApplyThread(s, i, t);
    if t.ChangeAlarmOutside? {
      assert s'.threads[i].dirty;
    } else if SomeDirty(s) && t != Increment {
      var k :| 0 <= k < |s.threads| && s.threads[k].dirty;
      assert s'.threads[k].dirty;
    }
  }
}
