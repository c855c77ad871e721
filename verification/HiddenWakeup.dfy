/**
  Where the wake-up promise ends. The event counter is one byte, so a nonzero multiple of
  256 unread writes looks like none at registration; these runs show it happens, and that
  nothing else hides a finished break. They also show what the unlocked accesses to the
  semaphore slot allow.
 */
module HiddenWakeup {
  import opened Platform
  import opened AlarmMilli
  import opened EventFile
  import opened Mainloop
  import opened MainloopSystem
  import opened SystemInvariant
  import opened SystemTheorems
  import opened LockProgress
  import opened Phases

  // ---------- A poll put to sleep by 256 writes ----------

  /**
    The main task is between Update and select(); `k` writes were unread at Update, which saw
    no alarm, and `n` breaks have come and gone since.
   */
  predicate AfterBreaks(s: State, k: nat, n: nat) {
    && s.fds.event == RESERVED_FD_MIN
    && !s.apiTaken && !s.eventTaken && s.signal == None
    && s.main.pc.WantRegister?
    && |s.threads| == 1
    && s.threads[0].pc.Idle? && !s.threads[0].inApi && s.threads[0].epoch == s.h.epoch == 0
    && s.event == Event(RESERVED_FD_MIN, true, (k + n) % 256)
    && s.h.unread == k + n && s.h.brokenSinceUpdate == n
    && !s.h.sampled.running && !s.h.pending && s.h.sampleUs == 0
  }

  lemma UpdateThenCall(k: nat) returns (s: State)
    ensures Reachable(s) && AfterBreaks(s, k, 0)
  {
    var s0 := StartState(0, 1, AlarmState(0, 0, false), 0, 1, k);
    hide Reachable, Leads, Updated;
    s := UpdatePhase(s0, [], false);
    LeadsToReachable(s0, s, 3);
  }

  /** The main task goes from its call of select() to sleep. */
  lemma Registers(s: State) returns (s': State)
    requires Reachable(s) && s.main.pc.WantRegister? && !s.eventTaken && s.event.counter == 0
    ensures Reachable(s')
    ensures s' == s.(signal := Some(0),
                     main := s.main.(pc := Asleep, semaphore := 0, woken := false, sleptFrom := s.clockUs),
                     h := s.h.(epoch := s.h.epoch + 1, unreadAtStart := s.h.unread, late := 0, lateDone := 0))
  {
    ReachableInv(s);
    hide Reachable, Leads, Inv;
    s' := SelectPhase(s, 0, false);
    LeadsToReachable(s, s', 4);
  }

  /** One whole break while no select() is registered. */
  lemma OneBreak(s: State, k: nat, n: nat) returns (s': State)
    requires Reachable(s) && AfterBreaks(s, k, n)
    ensures Reachable(s') && AfterBreaks(s', k, n + 1) && s'.alarm == s.alarm
    ensures !s'.threads[0].dirty
  {
    ReachableInv(s);
    hide Reachable, Leads, Inv;
    s' := BreakPhase(s, 0);
    LeadsToReachable(s, s', 7);
  }

  lemma {:induction false} ManyBreaks(k: nat, n: nat) returns (s: State)
    ensures Reachable(s) && AfterBreaks(s, k, n)
  {
    if n == 0 {
      s := UpdateThenCall(k);
    } else {
      var before := ManyBreaks(k, n - 1);
      s := OneBreak(before, k, n - 1);
    }
  }

  /**
    The poll sleeps without a token although `n` breaks have finished since its Update; with
    `k` other unread writes that was the count when it registered. No break is in progress.
   */
  ghost predicate SleepsThrough(s: State, k: nat, n: nat) {
    && s.main.pc.Asleep? && !s.main.woken
    && s.h.unreadAtStart == k + n && s.h.brokenSinceUpdate == n && s.h.late == 0
    && !BreakInFlight(s)
  }

  /**
    The exact limit of the promise of `otSysMainloopBreak`: a poll can sleep through `n`
    breaks that finished between Update and registration, with `k` other writes unread,
    exactly when `k + n` is a multiple of 256, for then the counter test sees zero. One break
    is enough, if 255 writes were unread before it.
   */
  lemma HiddenIffMultipleOf256(k: nat, n: nat)
    ensures (exists s :: Reachable(s) && SleepsThrough(s, k, n)) <==> (k + n) % 256 == 0
  {
    hide Reachable;
    forall s | Reachable(s) && SleepsThrough(s, k, n)
      ensures (k + n) % 256 == 0
    {
      ReachableInv(s);
    }
    if (k + n) % 256 == 0 {
      var before := ManyBreaks(k, n);
      var s := Registers(before);
      assert SleepsThrough(s, k, n);
    }
  }

  // ---------- The unlocked slot ----------

  /** A writer past its lock goes on to copy the slot exactly when a select() is registered; else its break is over. */
  lemma GoesOnIffSelecting(s: State, i: nat)
    requires Reachable(s) && i < |s.threads| && s.threads[i].pc.Checking?
    ensures var pc := Apply(s, ByThread(i, CheckSignal)).threads[i].pc;
            if InSelect(s.main.pc) then pc.Loading? else pc.Idle?
  {
    ReachableInv(s);
  }

  /** A trigger gives the token exactly when it names the current select(); any other leaves the main task as it was. */
  lemma TriggerCountsIffCurrent(s: State, i: nat)
    requires Reachable(s) && i < |s.threads| && s.threads[i].pc.Triggering?
    ensures var s', sem := Apply(s, ByThread(i, Trigger)), s.threads[i].pc.semaphore;
            if InSelect(s.main.pc) && sem == Some(s.main.semaphore) then s'.main == s.main.(woken := true)
            else s'.main == s.main
  {
  }

  /** A writer that has tested the slot copies a semaphore exactly when a select() is registered at that moment. */
  lemma CopiesSemaphoreIffSelecting(s: State, i: nat)
    requires Reachable(s) && i < |s.threads| && s.threads[i].pc.Loading?
    ensures var pc := Apply(s, ByThread(i, LoadSignal)).threads[i].pc;
            && (pc == Triggering(Some(s.main.semaphore)) <==> InSelect(s.main.pc))
            && (pc == Triggering(None) <==> !InSelect(s.main.pc))
  {
    ReachableInv(s);
  }

  /** A writer has found a semaphore in the slot; the poll still sleeps. */
  lemma SlotTested() returns (s: State)
    ensures Reachable(s) && s.main.pc.Asleep? && |s.threads| == 1 && s.threads[0].pc.Loading?
  {
    var s0 := UpdateThenCall(0);
    hide Reachable, Leads, Inv, Updated;
    var s1 := Registers(s0);
    ReachableInv(s1);
    var s2 := BreakUpToCheck(s1, 0);
    LeadsToReachable(s1, s2, 4);
    ReachableExtends(s2, ByThread(0, CheckSignal));
    s := Apply(s2, ByThread(0, CheckSignal));
  }

  /** It may be too late: the slot can be cleared between the test and the copy. */
  lemma TriggerMayBeEmpty()
    ensures exists s :: Reachable(s) && |s.threads| == 1 && s.threads[0].pc == Triggering(None)
  {
    hide Reachable;
    var s0 := SlotTested();
    ReachableExtends(s0, ByMain(Wake(ByOtherDescriptor)));
    var s1 := Apply(s0, ByMain(Wake(ByOtherDescriptor)));
    ReachableExtends(s1, ByMain(EndSelect(false, true)));
    var s2 := Apply(s1, ByMain(EndSelect(false, true)));
    ReachableExtends(s2, ByThread(0, LoadSignal));
    var s3 := Apply(s2, ByThread(0, LoadSignal));
    assert s3.threads[0].pc == Triggering(None);
  }

  // ---------- A re-armed alarm overslept ----------

  /** The poll sleeps without a token past the deadline of the present alarm, and no break is in progress. */
  ghost predicate Oversleeps(s: State) {
    && s.main.pc.Asleep? && !s.main.woken && !BreakInFlight(s)
    && s.alarm.running && !SleepsToDeadline(s)
  }

  /** The thread changes the alarm, for one that is due at once, in an API-locked section. */
  lemma Rearms(s: State, k: nat, n: nat) returns (s': State)
    requires Reachable(s) && AfterBreaks(s, k, n)
    ensures Reachable(s') && AfterBreaks(s', k, n) && s'.alarm == AlarmState(0, 0, true)
  {
    hide Reachable, Leads;
    s' := ApiPhase(s, 0, [Start(0, 0)]);
    LeadsToReachable(s, s', 4);
  }

  /** If the counter is zero again, the poll goes to sleep for the alarm Update saw, which was none. */
  lemma RegistersAndOversleeps(s: State, k: nat, n: nat) returns (s': State)
    requires Reachable(s) && AfterBreaks(s, k, n) && (k + n) % 256 == 0
    requires s.alarm == AlarmState(0, 0, true)
    ensures Reachable(s') && Oversleeps(s') && s'.threads == s.threads && s'.h.unreadAtStart == k + n
  {
    ReachableInv(s);
    PollCoverage(s.fds, s.h.sampled, s.h.sampleUs, s.h.pending);
    assert s.main.context.timeout.Micros() > 0;
    hide Reachable, Inv, Updated, TimeoutFor;
    s' := Registers(s);
  }

  /** Without the break after it, a re-armed alarm is overslept: TimelyRearm needs its threads to call it. */
  lemma RearmNeedsBreak()
    ensures exists s :: Reachable(s) && Oversleeps(s) && !Masked(s)
  {
    hide Reachable, Oversleeps;
    var s0 := UpdateThenCall(0);
    var s1 := Rearms(s0, 0, 0);
    var s2 := RegistersAndOversleeps(s1, 0, 0);
  }

  /**
    The exact limit of timely re-arming: although every thread that changed the alarm has
    finished its break, a poll that registered with `u` writes unread can oversleep the alarm
    exactly when `u` is a nonzero multiple of 256.
   */
  lemma RearmHiddenIffMultipleOf256(u: nat)
    ensures (exists s :: Reachable(s) && Oversleeps(s) && !SomeDirty(s) && s.h.unreadAtStart == u) <==>
              u > 0 && u % 256 == 0
  {
    hide Reachable;
    forall s | Reachable(s) && Oversleeps(s) && !SomeDirty(s) && s.h.unreadAtStart == u
      ensures u > 0 && u % 256 == 0
    {
      if !Masked(s) {
        TimelyRearm(s);
      }
    }
    if u > 0 && u % 256 == 0 {
      var s0 := UpdateThenCall(u - 1);
      var s1 := Rearms(s0, u - 1, 0);
      var s2 := OneBreak(s1, u - 1, 0);
      var s3 := RegistersAndOversleeps(s2, u - 1, 1);
      assert !SomeDirty(s3);
    }
  }
}
