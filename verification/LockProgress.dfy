/**
  Deadlock freedom: from every reachable state, a task that waits for a lock can be granted
  it after a few steps of the tasks that hold locks, and of no one else.
 */
module LockProgress {
  import opened Platform
  import opened AlarmMilli
  import opened EventFile
  import opened Mainloop
  import opened MainloopSystem
  import opened SystemInvariant
  import opened SystemTheorems

  datatype Agent = MainTask | Other(i: nat)

  predicate HoldsApi(s: State, a: Agent) {
    match a
    case MainTask => MainInApi(s.main.pc)
    case Other(i) => i < |s.threads| && s.threads[i].inApi
  }

  predicate HoldsEvent(s: State, a: Agent) {
    match a
    case MainTask => MainInEvent(s.main.pc)
    case Other(i) => i < |s.threads| && ThreadInEvent(s.threads[i])
  }

  /** The step with which a lock holder goes on towards its release. */
  function NextOfMain(pc: MainPc): MainStep {
    match pc
    case Tasklets => RunUpdate(false)
    case Prepared => UnlockAfterUpdate
    case Registering => Register(0, false)
    case Testing => TestCounter
    case Processing => ProcessEvent
    case WantRead => LockEvent
    case Reading => Consume
    case Callbacks => ProcessAlarm
    case AlarmDone => UnlockAfterProcess
    case _ => UnlockEvent
  }

  function NextOfThread(pc: ThreadPc): ThreadStep {
    match pc
    case Idle => LeaveApi
    case WaitApi => EnterApi
    case WaitEvent => EnterEvent
    case Locked => Increment
    case Incremented => LeaveEvent
    case Checking => CheckSignal
    case Loading => LoadSignal
    case Triggering(_) => Trigger
  }

  function Next(s: State, a: Agent): Step
    requires a.Other? ==> a.i < |s.threads|
  {
    match a
    case MainTask => ByMain(NextOfMain(s.main.pc))
    case Other(i) => ByThread(i, NextOfThread(s.threads[i].pc))
  }

  /** Steps the holder still needs before it has released both locks. */
  function Distance(s: State, a: Agent): nat
    requires a.Other? ==> a.i < |s.threads|
  {
    match a
    case MainTask =>
      (match s.main.pc
       case Processing => 7
       case WantRead => 6
       case Reading => 5
       case ReadDone => 4
       case Callbacks => 2
       case AlarmDone => 1
       case Tasklets => 2
       case Prepared => 1
       case Registering => 3
       case Testing => 2
       case Registered => 1
       case _ => 0)
    case Other(i) =>
      (match s.threads[i].pc
       case Idle => 1
       case WaitApi => 0
       case WaitEvent => 7
       case Locked => 6
       case Incremented => 5
       case Checking => 4
       case Loading => 3
       case Triggering(_) => 2)
  }

  /** All that a lock request of another agent depends on is unchanged; a thread can give the main task only a token. */
  predicate OnlyMoved(s: State, s': State, a: Agent) {
    && |s'.threads| == |s.threads|
    && (a != MainTask ==> s'.main == s.main.(woken := s'.main.woken) && s'.h.iteration == s.h.iteration)
    && forall j :: 0 <= j < |s.threads| && a != Other(j) ==> s'.threads[j] == s.threads[j]
  }

  /** What a holder of the event lock achieves with its next step. */
  ghost predicate TowardsEventRelease(s: State, s': State, a: Agent) {
    && OnlyMoved(s, s', a)
    && (s'.eventTaken ==> HoldsEvent(s', a) && Distance(s', a) < Distance(s, a))
    && s'.apiTaken == s.apiTaken
    && (forall b :: HoldsApi(s, b) ==> HoldsApi(s', b))
  }

  /** What a holder of the API lock achieves with its next step, if nobody else has the event lock. */
  ghost predicate TowardsApiRelease(s: State, s': State, a: Agent) {
    && OnlyMoved(s, s', a)
    && (s'.eventTaken ==> HoldsEvent(s', a))
    && (s'.apiTaken ==> HoldsApi(s', a) && Distance(s', a) < Distance(s, a))
  }

  lemma MainLeavesEvent(s: State)
    requires MainInEvent(s.main.pc)
    requires s.main.pc.Registering? ==> Selects(s.event, s.main.context.maxFd + 1, s.main.context.readFds)
    ensures Enabled(s, Next(s, MainTask))
    ensures TowardsEventRelease(s, Apply(s, Next(s, MainTask)), MainTask)
  {
    hide Selects, DoUpdate, Processed, Consumed, Due;
  }

  lemma ThreadOnlyMoves(s: State, i: nat, t: ThreadStep)
    requires i < |s.threads| && ThreadEnabled(s, s.threads[i], t)
    ensures OnlyMoved(s, ApplyThread(s, i, t), Other(i))
  {
    hide Written, Accepts, Obey;
  }

  lemma ThreadLeavesEvent(s: State, i: nat)
    requires i < |s.threads| && ThreadInEvent(s.threads[i])
    ensures Enabled(s, Next(s, Other(i)))
    ensures TowardsEventRelease(s, Apply(s, Next(s, Other(i))), Other(i))
  {
    ThreadOnlyMoves(s, i, NextOfThread(s.threads[i].pc));
    hide Accepts, Written, OnlyMoved;
  }

  lemma MainLeavesApi(s: State)
    requires MainInApi(s.main.pc) && (s.eventTaken ==> MainInEvent(s.main.pc))
    ensures Distance(s, MainTask) > 0
    ensures Enabled(s, Next(s, MainTask))
    ensures TowardsApiRelease(s, Apply(s, Next(s, MainTask)), MainTask)
  {
    hide Updated, Processed, Consumed, Due, DoRegister;
  }

  lemma ThreadLeavesApi(s: State, i: nat)
    requires i < |s.threads| && s.threads[i].inApi && !s.threads[i].pc.WaitApi?
    requires s.eventTaken ==> ThreadInEvent(s.threads[i])
    ensures Distance(s, Other(i)) > 0
    ensures Enabled(s, Next(s, Other(i)))
    ensures TowardsApiRelease(s, Apply(s, Next(s, Other(i))), Other(i))
  {
    ThreadOnlyMoves(s, i, NextOfThread(s.threads[i].pc));
    hide Written, OnlyMoved, Obey;
  }

  // ---------- Runs of lock holders ----------

  predicate Timeless(steps: seq<Step>) {
    forall k :: 0 <= k < |steps| ==> !steps[k].Tick?
  }

  /** `s'` is reached from `s` by at most `n` steps, none of which lets time pass. */
  ghost predicate Leads(s: State, s': State, n: nat) {
    exists steps: seq<Step> :: |steps| <= n && Timeless(steps) && Valid(s, steps) && Run(s, steps) == s'
  }

  lemma LeadsFurther(s: State, step: Step, s': State, n: nat)
    requires Enabled(s, step) && !step.Tick? && Leads(Apply(s, step), s', n)
    ensures Leads(s, s', n + 1)
  {
    hide Apply, Enabled;
    var steps: seq<Step> :| |steps| <= n && Timeless(steps) && Valid(Apply(s, step), steps)
                 && Run(Apply(s, step), steps) == s';
    var all := [step] + steps;
    assert all[1..] == steps;
    assert Valid(s, all) && Run(s, all) == s';
  }

  lemma LeadsNowhere(s: State)
    ensures Leads(s, s, 0)
  {
    assert Valid(s, []) && Run(s, []) == s;
  }

  lemma LeadsOn(s: State, s1: State, s2: State, n: nat, m: nat)
    requires Leads(s, s1, n) && Leads(s1, s2, m)
    ensures Leads(s, s2, n + m)
    decreases n
  {
    hide Apply, Enabled;
    var steps: seq<Step> :| |steps| <= n && Timeless(steps) && Valid(s, steps) && Run(s, steps) == s1;
    if steps == [] {
      var more: seq<Step> :| |more| <= m && Timeless(more) && Valid(s1, more) && Run(s1, more) == s2;
      assert |more| <= n + m;
    } else {
      assert Leads(Apply(s, steps[0]), s1, n - 1) by {
        assert |steps[1..]| <= n - 1;
      }
      LeadsOn(Apply(s, steps[0]), s1, s2, n - 1, m);
      LeadsFurther(s, steps[0], s2, n - 1 + m);
    }
  }

  lemma LeavesEvent(s: State, a: Agent)
    requires Inv(s) && HoldsEvent(s, a)
    ensures Enabled(s, Next(s, a)) && !Next(s, a).Tick?
    ensures TowardsEventRelease(s, Apply(s, Next(s, a)), a)
  {
    hide TowardsEventRelease, Enabled, Apply;
    match a {
      case MainTask =>
        if s.main.pc.Registering? {
          AlwaysRegisters(s);
        }
        MainLeavesEvent(s);
      case Other(i) => ThreadLeavesEvent(s, i);
    }
  }

  lemma {:induction false} EventIsReleased(s: State, a: Agent) returns (s': State)
    requires Inv(s) && HoldsEvent(s, a)
    ensures Inv(s') && !s'.eventTaken && OnlyMoved(s, s', a)
    ensures s'.apiTaken == s.apiTaken && (forall b :: HoldsApi(s, b) ==> HoldsApi(s', b))
    ensures Leads(s, s', Distance(s, a))
    decreases Distance(s, a)
  {
    hide Inv, Apply, Enabled, Leads;
    LeavesEvent(s, a);
    var s1 := Apply(s, Next(s, a));
    StepKeepsInv(s, Next(s, a));
    if s1.eventTaken {
      s' := EventIsReleased(s1, a);
      LeadsFurther(s, Next(s, a), s', Distance(s1, a));
      LeadsWithin(s, s', Distance(s1, a) + 1, Distance(s, a));
    } else {
      s' := s1;
      LeadsNowhere(s1);
      LeadsFurther(s, Next(s, a), s1, 0);
      LeadsWithin(s, s', 1, Distance(s, a));
    }
  }

  lemma LeadsWithin(s: State, s': State, n: nat, m: nat)
    requires Leads(s, s', n) && n <= m
    ensures Leads(s, s', m)
  {
  }

  lemma {:induction false} ApiIsReleased(s: State, a: Agent) returns (s': State)
    requires Inv(s) && HoldsApi(s, a)
    requires s.eventTaken ==> HoldsEvent(s, a)
    ensures Inv(s') && !s'.apiTaken && OnlyMoved(s, s', a)
    ensures Leads(s, s', Distance(s, a))
    decreases Distance(s, a)
  {
    match a {
      case MainTask => MainLeavesApi(s);
      case Other(i) => ThreadLeavesApi(s, i);
    }
    hide Inv, Apply, Enabled, Leads;
    var s1 := Apply(s, Next(s, a));
    StepKeepsInv(s, Next(s, a));
    if s1.apiTaken {
      s' := ApiIsReleased(s1, a);
      LeadsFurther(s, Next(s, a), s', Distance(s1, a));
      LeadsWithin(s, s', Distance(s1, a) + 1, Distance(s, a));
    } else {
      s' := s1;
      LeadsNowhere(s1);
      LeadsFurther(s, Next(s, a), s1, 0);
      LeadsWithin(s, s', 1, Distance(s, a));
    }
  }

  // ---------- Deadlock freedom ----------

  /** A task stands before this lock operation, whether or not the lock is free. */
  predicate Waiting(s: State, w: Step) {
    match w
    case ByMain(LockForUpdate) => s.main.pc.WantUpdate?
    case ByMain(LockForProcess) => s.main.pc.WantProcess?
    case ByMain(LockEvent) => s.main.pc.WantRegister? || s.main.pc.WantRead?
    case ByThread(i, EnterApi) => i < |s.threads| && s.threads[i].pc.WaitApi?
    case ByThread(i, EnterEvent) => i < |s.threads| && s.threads[i].pc.WaitEvent?
    case _ => false
  }

  predicate WantsApi(w: Step) {
    w == ByMain(LockForUpdate) || w == ByMain(LockForProcess) || (w.ByThread? && w.t == EnterApi)
  }

  lemma FindEventHolder(s: State) returns (a: Agent)
    requires EventInv(s) && s.eventTaken
    ensures HoldsEvent(s, a)
  {
    if MainInEvent(s.main.pc) {
      a := MainTask;
    } else {
      var i :| 0 <= i < |s.threads| && ThreadInEvent(s.threads[i]);
      a := Other(i);
    }
  }

  lemma FindApiHolder(s: State) returns (a: Agent)
    requires ApiInv(s) && s.apiTaken
    ensures HoldsApi(s, a)
  {
    if MainInApi(s.main.pc) {
      a := MainTask;
    } else {
      var i :| 0 <= i < |s.threads| && s.threads[i].inApi;
      a := Other(i);
    }
  }

  /** A task that waits holds no event lock; one that waits for the API lock holds neither. */
  lemma StaysWaiting(s: State, s': State, a: Agent, w: Step)
    requires Inv(s) && Waiting(s, w) && OnlyMoved(s, s', a)
    requires HoldsEvent(s, a) || (WantsApi(w) && HoldsApi(s, a))
    ensures Waiting(s', w)
  {
    hide EventInv, DataInv, StampInv, BeforeInv, CountInv, TokenInv, AlarmInv, ReadInv;
  }

  /** A waiting main task is left as it was, but for a token. */
  predicate KeepsWaiter(s: State, s': State, w: Step) {
    w.ByMain? ==> s'.main == s.main.(woken := s'.main.woken) && s'.h.iteration == s.h.iteration
  }

  lemma HolderIsNotWaiter(s: State, s': State, a: Agent, w: Step)
    requires Inv(s) && Waiting(s, w) && OnlyMoved(s, s', a)
    requires HoldsEvent(s, a) || (WantsApi(w) && HoldsApi(s, a))
    ensures KeepsWaiter(s, s', w)
  {
    hide Inv;
  }

  lemma EventComesFree(s: State, w: Step) returns (s': State)
    requires Inv(s) && Waiting(s, w)
    ensures Inv(s') && Waiting(s', w) && !s'.eventTaken && Leads(s, s', 7) && KeepsWaiter(s, s', w)
  {
    if s.eventTaken {
      var a := FindEventHolder(s);
      hide Inv, Apply, Enabled, Leads, Waiting, OnlyMoved;
      s' := EventIsReleased(s, a);
      LeadsWithin(s, s', Distance(s, a), 7);
      StaysWaiting(s, s', a, w);
      HolderIsNotWaiter(s, s', a, w);
    } else {
      s' := s;
      hide Inv, Leads;
      LeadsNowhere(s);
      LeadsWithin(s, s, 0, 7);
    }
  }

  lemma ApiComesFree(s: State, w: Step) returns (s': State)
    requires Inv(s) && Waiting(s, w) && WantsApi(w) && !s.eventTaken
    ensures Waiting(s', w) && !s'.apiTaken && Leads(s, s', 7) && KeepsWaiter(s, s', w)
  {
    if s.apiTaken {
      var a := FindApiHolder(s);
      hide Inv, Apply, Enabled, Leads, Waiting, OnlyMoved;
      s' := ApiIsReleased(s, a);
      LeadsWithin(s, s', Distance(s, a), 7);
      StaysWaiting(s, s', a, w);
      HolderIsNotWaiter(s, s', a, w);
    } else {
      s' := s;
      hide Inv, Leads;
      LeadsNowhere(s);
      LeadsWithin(s, s, 0, 7);
    }
  }

  /** Every waiting task can get its lock within 14 steps, without any time passing. */
  lemma LocksAreGranted(s: State, w: Step)
    requires Reachable(s) && Waiting(s, w)
    ensures exists s' :: Leads(s, s', 14) && Enabled(s', w) && KeepsWaiter(s, s', w)
  {
    hide Inv, Apply, Reachable, Leads;
    ReachableInv(s);
    var s1 := EventComesFree(s, w);
    if WantsApi(w) {
      var s2 := ApiComesFree(s1, w);
      LeadsOn(s, s1, s2, 7, 7);
      assert Enabled(s2, w);
    } else {
      LeadsWithin(s, s1, 7, 14);
      assert Enabled(s1, w);
    }
  }
}
