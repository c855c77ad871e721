/**
  What a token and a break on its way are worth: from every reachable state the writer alone
  can finish its break, the sleeping select() then holds its token, and a poll that holds its
  token can end and have the event file read, whoever holds the locks.
 */
module WakeProgress {
  import opened Platform
  import opened EventFile
  import opened MainloopSystem
  import opened SystemInvariant
  import opened SystemTheorems
  import opened LockProgress
  import opened Phases

  /** The poll sleeps and thread `i` is late: it incremented after the registration. */
  predicate OnItsWay(s: State, i: nat) {
    s.main.pc.Asleep? && i < |s.threads| && Late(s.threads[i], s.h.epoch)
  }

  function StepsLeft(t: Thread): nat {
    match t.pc
    case Incremented => 4
    case Checking => 3
    case Loading => 2
    case _ => 1
  }

  /** The next step of the break leads on, or it gives the token to the sleeping select(). */
  lemma WriterMoves(s: State, i: nat)
    requires Inv(s) && OnItsWay(s, i)
    ensures Enabled(s, Next(s, Other(i))) && !Next(s, Other(i)).Tick?
    ensures var s' := Apply(s, Next(s, Other(i)));
            && s'.main.pc.Asleep? && s'.h.iteration == s.h.iteration
            && (s'.main.woken || (OnItsWay(s', i) && StepsLeft(s'.threads[i]) < StepsLeft(s.threads[i])))
  {
    hide ApiInv, EventInv, StampInv, BeforeInv, CountInv, AlarmInv, ReadInv;
  }

  lemma {:induction false} WriterArrives(s: State, i: nat) returns (s': State)
    requires Inv(s) && OnItsWay(s, i)
    ensures s'.main.pc.Asleep? && s'.main.woken && s'.h.iteration == s.h.iteration
    ensures Leads(s, s', StepsLeft(s.threads[i]))
    decreases StepsLeft(s.threads[i])
  {
    WriterMoves(s, i);
    hide Inv, Apply, Enabled, Leads, OnItsWay;
    var step := Next(s, Other(i));
    var s1 := Apply(s, step);
    StepKeepsInv(s, step);
    if s1.main.woken {
      s' := s1;
      LeadsNowhere(s1);
      LeadsFurther(s, step, s1, 0);
      LeadsWithin(s, s1, 1, StepsLeft(s.threads[i]));
    } else {
      s' := WriterArrives(s1, i);
      LeadsFurther(s, step, s', StepsLeft(s1.threads[i]));
      LeadsWithin(s, s', StepsLeft(s1.threads[i]) + 1, StepsLeft(s.threads[i]));
    }
  }

  /** A break in flight can give the sleeping select() its token within four steps, without time passing. */
  lemma BreakInFlightWakes(s: State)
    requires Reachable(s) && s.main.pc.Asleep? && BreakInFlight(s)
    ensures exists s' :: Leads(s, s', 4) && s'.main.pc.Asleep? && s'.main.woken && s'.h.iteration == s.h.iteration
  {
    ReachableInv(s);
    var i :| 0 <= i < |s.threads| && Late(s.threads[i], s.h.epoch);
    hide Inv, Leads, Reachable;
    var s' := WriterArrives(s, i);
    LeadsWithin(s, s', StepsLeft(s.threads[i]), 4);
  }

  // ---------- From the token to the read ----------

  /** In the iteration of `s` the event file has been read, and nothing is unread. */
  predicate Served(s: State, s': State) {
    && s'.main.pc.ReadDone? && s'.h.readAt == s'.h.iteration == s.h.iteration
    && s'.h.unread == 0 && s'.event.counter == 0
  }

  /** Whoever holds the API lock gives it back, and Process begins. */
  lemma ProcessBegins(s: State) returns (s': State)
    requires Reachable(s) && s.main.pc.WantProcess? && s.main.eventReady
    ensures Leads(s, s', 16) && s'.main.pc.WantRead? && s'.h.iteration == s.h.iteration
  {
    hide Leads, Reachable;
    LocksAreGranted(s, ByMain(LockForProcess));
    var s1 :| Leads(s, s1, 14) && Enabled(s1, ByMain(LockForProcess)) && KeepsWaiter(s, s1, ByMain(LockForProcess));
    OneMoreStep(s, s1, ByMain(LockForProcess), 14);
    var s2 := Apply(s1, ByMain(LockForProcess));
    OneMoreStep(s, s2, ByMain(ProcessEvent), 15);
    s' := Apply(s2, ByMain(ProcessEvent));
  }

  lemma ReadEnds(s: State) returns (s': State)
    requires Reachable(s) && s.main.pc.WantRead?
    ensures Leads(s, s', 16) && Served(s, s')
  {
    hide Leads, Reachable;
    LocksAreGranted(s, ByMain(LockEvent));
    var s1 :| Leads(s, s1, 14) && Enabled(s1, ByMain(LockEvent)) && KeepsWaiter(s, s1, ByMain(LockEvent));
    OneMoreStep(s, s1, ByMain(LockEvent), 14);
    var s2 := Apply(s1, ByMain(LockEvent));
    LeadsToReachable(s, s2, 15);
    ReachableInv(s2);
    IsAccepting(s2);
    hide Inv;
    OneMoreStep(s, s2, ByMain(Consume), 15);
    s' := Apply(s2, ByMain(Consume));
  }

  /** A poll that holds its token can end, and the event file be read, within 34 steps and without time passing. */
  lemma TokenIsServed(s: State)
    requires Reachable(s) && s.main.pc.Asleep? && s.main.woken
    ensures exists s' :: Leads(s, s', 34) && Served(s, s')
  {
    hide Leads, Reachable;
    var s1 := WakePhase(s, ByToken, true);
    LeadsToReachable(s, s1, 2);
    var s2 := ProcessBegins(s1);
    LeadsOn(s, s1, s2, 2, 16);
    LeadsToReachable(s, s2, 18);
    var s3 := ReadEnds(s2);
    LeadsOn(s, s2, s3, 18, 16);
  }

  /**
    The promise of `otSysMainloopBreak` to the end: after a finished break that followed the
    latest Update, the sleeping poll can end and the event be read in this iteration, under
    the one exception of BreakWakesPoll.
   */
  lemma BreakIsServed(s: State)
    requires Reachable(s) && s.main.pc.Asleep?
    requires s.h.brokenSinceUpdate > 0 && !(Masked(s) && s.h.lateDone == 0)
    ensures exists s' :: Leads(s, s', 34) && Served(s, s')
  {
    BreakWakesPoll(s);
    TokenIsServed(s);
  }

  /** The same for a break that is still in progress. */
  lemma BreakInFlightIsServed(s: State)
    requires Reachable(s) && s.main.pc.Asleep? && BreakInFlight(s)
    ensures exists s' :: Leads(s, s', 38) && Served(s, s')
  {
    hide Leads, Reachable, BreakInFlight;
    BreakInFlightWakes(s);
    var s1 :| Leads(s, s1, 4) && s1.main.pc.Asleep? && s1.main.woken && s1.h.iteration == s.h.iteration;
    LeadsToReachable(s, s1, 4);
    TokenIsServed(s1);
    var s2 :| Leads(s1, s2, 34) && Served(s1, s2);
    LeadsOn(s, s1, s2, 4, 34);
    assert Served(s, s2);
  }
}
