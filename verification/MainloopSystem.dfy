/**
  The running system: the main task of example/main/cli.c, any number of other threads that
  use the API lock and call `otSysMainloopBreak`, the event file and the alarm, interleaved
  at every lock operation and at every unlocked access to the semaphore slot.

  Each step runs one atomic piece of the C code, using the same functions that specify the
  classes of EventFile, AlarmMilli and Mainloop.
 */
module MainloopSystem {
  import opened Platform
  import opened AlarmMilli
  import opened EventFile
  import opened Mainloop

  // ---------- State ----------

  /** The program counter of the main task, inside the loop of `run_cli`. */
  datatype MainPc =
    | WantUpdate      // in otSysApiLock before Update
    | Tasklets        // API lock held; otTaskletsProcess, then otSysMainloopUpdate
    | Prepared        // API lock held; the context is filled
    | WantRegister    // select() called; event_start_select wants the event lock
    | Registering     // event lock held; guard not evaluated yet
    | Testing         // semaphore stored; counter not tested yet
    | Registered      // event lock still held, about to release it
    | Asleep          // waiting for the semaphore
    | Ending          // about to run event_end_select
    | WantProcess     // in otSysApiLock before Process
    | Processing      // API lock held; platformVfsEventProcess
    | WantRead        // event_read wants the event lock
    | Reading         // event lock held; counter not consumed yet
    | ReadDone        // counter consumed; event lock still held
    | Callbacks       // API lock held; CLI and radio processing
    | AlarmDone       // API lock held; platformAlarmProcess has decided, its callback may run
    | Aborted         // select() failed

  /** The program counter of another thread. From `WaitEvent` on it is inside otSysMainloopBreak. */
  datatype ThreadPc =
    | Idle
    | WaitApi
    | WaitEvent
    | Locked          // event lock held; counter not incremented yet
    | Incremented     // event lock still held
    | Checking        // lock released; about to test sSignalSemaphore.sem
    | Loading         // the test succeeded; about to copy sSignalSemaphore
    | Triggering(semaphore: Option<Semaphore>)

  /** `iteration` and `epoch` are those of this thread's latest increment. */
  datatype Thread = Thread(pc: ThreadPc, inApi: bool, dirty: bool, iteration: nat, epoch: nat)

  datatype Main = Main(
    pc: MainPc,
    context: Context,
    semaphore: Semaphore,   // the semaphore of the current select()
    woken: bool,            // it holds a token
    sleptFrom: nat,
    sleptFull: bool,        // the last select() ended by its timeout
    eventReady: bool,       // the event descriptor is in the returned read set
    fired: bool)

  /** Variables the C code does not have: they record what happened, and no step depends on them. */
  datatype History = History(
    unread: nat,            // exact number of increments since the last read
    iteration: nat,         // number of Updates so far
    readAt: nat,            // `iteration` at the last read
    sinceUpdate: nat,       // increments since the latest Update
    brokenSinceUpdate: nat, // finished breaks among them
    epoch: nat,             // number of registrations so far
    unreadAtStart: nat,     // `unread` at the latest registration
    late: nat,              // increments since the latest registration
    lateDone: nat,          // finished breaks among them
    sampleUs: nat,          // the clock sample of the latest Update
    sampled: AlarmState,    // the alarm it saw
    pending: bool)          // whether it saw pending tasklets

  datatype State = State(
    fds: Descriptors,
    apiTaken: bool,
    eventTaken: bool,
    event: Event,
    signal: Option<Semaphore>,
    alarm: AlarmState,
    clockUs: nat,
    main: Main,
    threads: seq<Thread>,
    h: History)

  /** The main loop is about to start; other threads are outside, with any number of unread writes. */
  predicate Init(s: State) {
    && s.fds.event == RESERVED_FD_MIN
    && !s.apiTaken && !s.eventTaken
    && s.event == Event(RESERVED_FD_MIN, true, s.h.unread % UINT8_RANGE)
    && s.signal == None
    && s.main.pc.WantUpdate?
    && s.h.iteration == 0 && s.h.epoch == 0
    && forall i :: 0 <= i < |s.threads| ==> s.threads[i] == Thread(Idle, false, false, 0, 0)
  }

  // ---------- Steps ----------

  datatype Wakeup = ByToken | ByTimeout | ByOtherDescriptor

  datatype MainStep =
    | LockForUpdate
    | ChangeAlarm(command: Command)
    | RunUpdate(pending: bool)
    | UnlockAfterUpdate
    | LockEvent
    | Register(semaphore: Semaphore, leftover: bool)
    | TestCounter
    | UnlockEvent
    | Wake(cause: Wakeup)
    | EndSelect(failed: bool, eventReady: bool)
    | LockForProcess
    | ProcessEvent
    | Consume
    | ProcessAlarm
    | UnlockAfterProcess

  datatype ThreadStep =
    | CallLock
    | EnterApi
    | ChangeAlarmOutside(command: Command)
    | LeaveApi
    | CallBreak
    | EnterEvent
    | Increment
    | LeaveEvent
    | CheckSignal
    | LoadSignal
    | Trigger

  datatype Step =
    | ByMain(m: MainStep)
    | ByThread(i: nat, t: ThreadStep)
    | Tick(us: nat)

  predicate MainEnabled(s: State, m: MainStep) {
    var pc := s.main.pc;
    match m
    case LockForUpdate => pc.WantUpdate? && !s.apiTaken
    case ChangeAlarm(_) => pc.Tasklets? || pc.Callbacks? || (pc.AlarmDone? && s.main.fired)
    case RunUpdate(_) => pc.Tasklets?
    case UnlockAfterUpdate => pc.Prepared?
    case LockEvent => (pc.WantRegister? || pc.WantRead?) && !s.eventTaken
    case Register(_, _) => pc.Registering?
    case TestCounter => pc.Testing?
    case UnlockEvent => pc.Registered? || pc.ReadDone?
    case Wake(cause) =>
      && pc.Asleep?
      && (cause.ByToken? ==> s.main.woken)
      && (cause.ByTimeout? ==> s.clockUs >= s.main.sleptFrom + s.main.context.timeout.Micros())
    case EndSelect(_, _) => pc.Ending?
    case LockForProcess => pc.WantProcess? && !s.apiTaken
    case ProcessEvent => pc.Processing?
    case Consume => pc.Reading?
    case ProcessAlarm => pc.Callbacks?
    case UnlockAfterProcess => pc.AlarmDone?
  }

  predicate ThreadEnabled(s: State, t: Thread, step: ThreadStep) {
    match step
    case CallLock => t.pc.Idle? && !t.inApi
    case EnterApi => t.pc.WaitApi? && !s.apiTaken
    case ChangeAlarmOutside(_) => t.pc.Idle? && t.inApi
    case LeaveApi => t.pc.Idle? && t.inApi
    case CallBreak => t.pc.Idle?
    case EnterEvent => t.pc.WaitEvent? && !s.eventTaken
    case Increment => t.pc.Locked?
    case LeaveEvent => t.pc.Incremented?
    case CheckSignal => t.pc.Checking?
    case LoadSignal => t.pc.Loading?
    case Trigger => t.pc.Triggering?
  }

  predicate Enabled(s: State, step: Step) {
    match step
    case ByMain(m) => MainEnabled(s, m)
    case ByThread(i, t) => i < |s.threads| && ThreadEnabled(s, s.threads[i], t)
    case Tick(_) => true
  }

  function At(s: State, pc: MainPc): State {
    s.(main := s.main.(pc := pc))
  }

  /** `event_start_select` under its lock: store the semaphore if the guard holds. */
  function DoRegister(s: State, semaphore: Semaphore, leftover: bool): State {
    if Selects(s.event, s.main.context.maxFd + 1, s.main.context.readFds) then
      s.(signal := Some(semaphore),
         main := s.main.(pc := Testing, semaphore := semaphore, woken := leftover),
         h := s.h.(epoch := s.h.epoch + 1, unreadAtStart := s.h.unread, late := 0, lateDone := 0))
    else
      s.(main := s.main.(pc := Registered, semaphore := semaphore, woken := leftover))
  }

  function DoUpdate(s: State, pending: bool): State {
    s.(main := s.main.(pc := Prepared, context := Updated(FRESH_CONTEXT, s.fds, s.alarm, s.clockUs, pending)),
       h := s.h.(iteration := s.h.iteration + 1, sinceUpdate := 0, brokenSinceUpdate := 0,
                 sampleUs := s.clockUs, sampled := s.alarm, pending := pending))
  }

  function ApplyMain(s: State, m: MainStep): State {
    match m
    case LockForUpdate => At(s, Tasklets).(apiTaken := true)
    case ChangeAlarm(c) => s.(alarm := Obey(s.alarm, c))
    case RunUpdate(pending) => DoUpdate(s, pending)
    case UnlockAfterUpdate => At(s, WantRegister).(apiTaken := false)
    case LockEvent => At(s, if s.main.pc.WantRegister? then Registering else Reading).(eventTaken := true)
    case Register(semaphore, leftover) => DoRegister(s, semaphore, leftover)
    case TestCounter => s.(main := s.main.(pc := Registered, woken := s.main.woken || s.event.counter > 0))
    case UnlockEvent =>
      if s.main.pc.Registered? then s.(eventTaken := false, main := s.main.(pc := Asleep, sleptFrom := s.clockUs))
      else At(s, Callbacks).(eventTaken := false)
    case Wake(cause) => s.(main := s.main.(pc := Ending, sleptFull := cause.ByTimeout?))
    case EndSelect(failed, ready) =>
      s.(signal := None, main := s.main.(pc := if failed then Aborted else WantProcess, eventReady := ready))
    case LockForProcess => At(s, Processing).(apiTaken := true)
    case ProcessEvent => At(s, if s.main.eventReady then WantRead else Callbacks)
    case Consume =>
      At(s, ReadDone).(event := Consumed(s.event, s.fds.event), h := s.h.(unread := 0, readAt := s.h.iteration))
    case ProcessAlarm =>
      s.(alarm := Processed(s.alarm, GetNow(s.clockUs), []),
         main := s.main.(pc := AlarmDone, fired := Due(s.alarm, GetNow(s.clockUs))))
    case UnlockAfterProcess => At(s, WantUpdate).(apiTaken := false)
  }

  function Put(s: State, i: nat, t: Thread): State
    requires i < |s.threads|
  {
    s.(threads := s.threads[i := t])
  }

  /** The locked part of `event_write`; a refused write releases the lock and leaves. */
  function DoIncrement(s: State, i: nat): State
    requires i < |s.threads|
  {
    var t := s.threads[i];
    if Accepts(s.event, s.fds.event) then
      Put(s, i, t.(pc := Incremented, dirty := false, iteration := s.h.iteration, epoch := s.h.epoch))
        .(event := Written(s.event, s.fds.event),
          h := s.h.(unread := s.h.unread + 1, sinceUpdate := s.h.sinceUpdate + 1, late := s.h.late + 1))
    else
      Put(s, i, t.(pc := Idle)).(eventTaken := false)
  }

  /** A break returns. */
  function Finish(s: State, i: nat): State
    requires i < |s.threads|
  {
    var t := s.threads[i];
    Put(s, i, t.(pc := Idle)).(
      h := s.h.(brokenSinceUpdate := s.h.brokenSinceUpdate + (if t.iteration == s.h.iteration then 1 else 0),
                lateDone := s.h.lateDone + (if t.epoch == s.h.epoch then 1 else 0)))
  }

  predicate InSelect(pc: MainPc) {
    pc.Testing? || pc.Registered? || pc.Asleep? || pc.Ending?
  }

  /** A token given to a semaphore other than the current one, or to none, has no effect here. */
  function DoTrigger(s: State, i: nat): State
    requires i < |s.threads| && s.threads[i].pc.Triggering?
  {
    var hit := InSelect(s.main.pc) && s.threads[i].pc.semaphore == Some(s.main.semaphore);
    Finish(s, i).(main := s.main.(woken := s.main.woken || hit))
  }

  function ApplyThread(s: State, i: nat, step: ThreadStep): State
    requires i < |s.threads| && ThreadEnabled(s, s.threads[i], step)
  {
    var t := s.threads[i];
    match step
    case CallLock => Put(s, i, t.(pc := WaitApi))
    case EnterApi => Put(s, i, t.(pc := Idle, inApi := true)).(apiTaken := true)
    case ChangeAlarmOutside(c) => Put(s, i, t.(dirty := true)).(alarm := Obey(s.alarm, c))
    case LeaveApi => Put(s, i, t.(inApi := false)).(apiTaken := false)
    case CallBreak => Put(s, i, t.(pc := WaitEvent))
    case EnterEvent => Put(s, i, t.(pc := Locked)).(eventTaken := true)
    case Increment => DoIncrement(s, i)
    case LeaveEvent => Put(s, i, t.(pc := Checking)).(eventTaken := false)
    case CheckSignal => if s.signal.Some? then Put(s, i, t.(pc := Loading)) else Finish(s, i)
    case LoadSignal => Put(s, i, t.(pc := Triggering(s.signal)))
    case Trigger => DoTrigger(s, i)
  }

  function Apply(s: State, step: Step): State
    requires Enabled(s, step)
  {
    match step
    case ByMain(m) => ApplyMain(s, m)
    case ByThread(i, t) => ApplyThread(s, i, t)
    case Tick(us) => s.(clockUs := s.clockUs + us)
  }

  // ---------- Runs ----------

  predicate Valid(s: State, steps: seq<Step>)
    decreases steps
  {
    steps == [] || (Enabled(s, steps[0]) && Valid(Apply(s, steps[0]), steps[1..]))
  }

  function Run(s: State, steps: seq<Step>): State
    requires Valid(s, steps)
    decreases steps
  {
    if steps == [] then s else Run(Apply(s, steps[0]), steps[1..])
  }

  ghost predicate Reachable(s: State) {
    exists s0, steps :: Init(s0) && Valid(s0, steps) && Run(s0, steps) == s
  }

  /** The loop about to start, with any descriptors, alarm, clock, number of threads and number of unread writes. */
  function StartState(cli: nat, radio: nat, alarm: AlarmState, clockUs: nat, threads: nat, unread: nat): (s: State)
    ensures s.fds == Descriptors(8, cli, radio) && s.alarm == alarm && s.clockUs == clockUs
    ensures |s.threads| == threads && s.h.unread == unread
    ensures Reachable(s)
  {
    var s := State(Descriptors(RESERVED_FD_MIN, cli, radio), false, false,
                   Event(RESERVED_FD_MIN, true, unread % UINT8_RANGE), None, alarm, clockUs,
                   Main(WantUpdate, FRESH_CONTEXT, 0, false, 0, false, false, false),
                   seq(threads, _ => Thread(Idle, false, false, 0, 0)),
                   History(unread, 0, 0, 0, 0, 0, 0, 0, 0, 0, alarm, false));
    assert Init(s) && Valid(s, []) && Run(s, []) == s;
    s
  }

  lemma {:induction false} RunExtends(s: State, steps: seq<Step>, step: Step)
    requires Valid(s, steps) && Enabled(Run(s, steps), step)
    ensures Valid(s, steps + [step]) && Run(s, steps + [step]) == Apply(Run(s, steps), step)
    decreases steps
  {
    hide Enabled, Apply;
    if steps == [] {
      assert (steps + [step])[1..] == [];
    } else {
      assert (steps + [step])[1..] == steps[1..] + [step];
      RunExtends(Apply(s, steps[0]), steps[1..], step);
    }
  }

  lemma ReachableExtends(s: State, step: Step)
    requires Reachable(s) && Enabled(s, step)
    ensures Reachable(Apply(s, step))
  {
    hide Enabled, Apply, Init;
    var s0, steps :| Init(s0) && Valid(s0, steps) && Run(s0, steps) == s;
    RunExtends(s0, steps, step);
  }
}
