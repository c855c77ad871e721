/**
  The millisecond alarm of src/alarm.c.

  `AlarmState` is the value of the three static variables; the functions on it say what
  each entry point does, and the class at the end is proved against them.
 */
module AlarmMilli {
  import opened Platform

  datatype AlarmState = AlarmState(t0: uint32, dt: uint32, running: bool) {

    /** The sum is taken in 64 bits, so it is not reduced modulo 2^32. */
    function Deadline(): nat {
      t0 + dt
    }
  }

  /** The 32-bit millisecond clock, read from the microsecond timer. */
  function GetNow(clockUs: nat): uint32 {
    (clockUs / US_PER_MS) % UINT32_RANGE
  }

  /** The number of times the 32-bit clock has rolled over. */
  function Epoch(clockUs: nat): nat {
    clockUs / US_PER_MS / UINT32_RANGE
  }

  predicate Due(a: AlarmState, now: uint32) {
    a.running && a.Deadline() <= now
  }

  /** The timeout that `platformAlarmUpdate` writes into the context. */
  function TimeoutFor(a: AlarmState, now: uint32): Timeval {
    if !a.running then
      Timeval(INT32_MAX, 0)
    else if a.Deadline() > now then
      var remaining := a.Deadline() - now;
      Timeval(remaining / MS_PER_S, (remaining % MS_PER_S) * US_PER_MS)
    else
      Timeval(0, 0)
  }

  /** What OpenThread code may do to the alarm, directly or from a callback. */
  datatype Command = Start(t0: uint32, dt: uint32) | Stop

  function Obey(a: AlarmState, c: Command): AlarmState {
    match c
    case Start(t0, dt) => AlarmState(t0, dt, true)
    case Stop => a.(running := false)
  }

  function ObeyAll(a: AlarmState, cs: seq<Command>): AlarmState
    decreases cs
  {
    if cs == [] then a else ObeyAll(Obey(a, cs[0]), cs[1..])
  }

  /** `platformAlarmProcess`: the alarm is disarmed before the callback runs. */
  function Processed(a: AlarmState, now: uint32, callback: seq<Command>): AlarmState {
    if Due(a, now) then ObeyAll(a.(running := false), callback) else a
  }

  // ---------- The clock and the timeout ----------

  /** The microsecond timer splits into its epoch, the 32-bit milliseconds, and the microseconds both drop. */
  lemma ClockMeaning(clockUs: nat)
    ensures clockUs == Epoch(clockUs) * 4_294_967_296_000 + GetNow(clockUs) * 1000 + clockUs % 1000
  {
  }

  /** Unit conversion is exact, and the seconds always fit the signed 32-bit field. */
  lemma TimeoutMeaning(a: AlarmState, now: uint32)
    ensures var t := TimeoutFor(a, now);
            && 0 <= t.sec <= 0x7fff_ffff && 0 <= t.usec < 1_000_000 && t.Normalised()
            && t.Micros() == t.sec * 1_000_000 + t.usec
            && (!a.running ==> t == Timeval(0x7fff_ffff, 0))
            && (a.running && a.t0 + a.dt > now ==> t.Micros() == (a.t0 + a.dt - now) * 1000)
            && (t.Micros() == 0 <==> a.running && a.t0 + a.dt <= now)
  {
  }

  /**
    Sleeping for the whole timeout is enough: the alarm is then due although both clock
    readings were floored to milliseconds.
   */
  lemma FullSleepReachesDeadline(a: AlarmState, sampleUs: nat, wakeUs: nat)
    requires a.running
    requires wakeUs >= sampleUs + TimeoutFor(a, GetNow(sampleUs)).Micros()
    requires Epoch(wakeUs) == Epoch(sampleUs)
    ensures Due(a, GetNow(wakeUs))
  {
    TimeoutMeaning(a, GetNow(sampleUs));
  }

  // ---------- Exact firing set ----------

  /**
    The alarm is left alone while `platformAlarmProcess` runs once per clock reading:
    the index of the call that fires, if one does.
   */
  function FiringIndex(a: AlarmState, clocks: seq<nat>): (r: Option<nat>)
    ensures r.Some? ==> r.value < |clocks|
    decreases clocks
  {
    if clocks == [] then None
    else if Due(a, GetNow(clocks[0])) then Some(0)
    else
      match FiringIndex(Processed(a, GetNow(clocks[0]), []), clocks[1..])
      case None => None
      case Some(i) => Some(i + 1)
  }

  lemma {:induction false} FiresAtFirstDueReading(a: AlarmState, clocks: seq<nat>)
    requires a.running
    ensures match FiringIndex(a, clocks)
            case Some(i) =>
              GetNow(clocks[i]) >= a.t0 + a.dt && forall j :: 0 <= j < i ==> GetNow(clocks[j]) < a.t0 + a.dt
            case None => forall j :: 0 <= j < |clocks| ==> GetNow(clocks[j]) < a.t0 + a.dt
    decreases clocks
  {
    if clocks != [] && !Due(a, GetNow(clocks[0])) {
      FiresAtFirstDueReading(a, clocks[1..]);
      assert forall j :: 0 < j < |clocks| ==> clocks[j] == clocks[1..][j - 1];
    }
  }

  /**
    The 64-bit sum is compared with a 32-bit clock, so an alarm whose T0 + Dt passes 2^32
    can never fire, and only then; until it is changed every Update asks for a positive sleep.
   */
  lemma CanFireIffDeadlineFits(a: AlarmState)
    requires a.running
    ensures (exists clocks :: FiringIndex(a, clocks).Some?) <==> a.t0 + a.dt < 0x1_0000_0000
    ensures a.t0 + a.dt >= 0x1_0000_0000 ==> forall clockUs: nat :: TimeoutFor(a, GetNow(clockUs)).Micros() > 0
  {
    if a.Deadline() < UINT32_RANGE {
      var clocks := [a.Deadline() * US_PER_MS];
      assert GetNow(clocks[0]) == a.Deadline();
      assert FiringIndex(a, clocks).Some?;
    } else {
      forall clocks | FiringIndex(a, clocks).Some?
        ensures false
      {
        FiresAtFirstDueReading(a, clocks);
      }
      forall clockUs: nat
        ensures TimeoutFor(a, GetNow(clockUs)).Micros() > 0
      {
        TimeoutMeaning(a, GetNow(clockUs));
      }
    }
  }

  // ---------- Conservation of alarm starts ----------

  datatype Op = Do(c: Command) | Process(clockUs: nat, callback: seq<Command>)

  /** How each start ended: fired, replaced by another start while running, or stopped while running. */
  datatype Ledger = Ledger(alarm: AlarmState, starts: nat, fires: nat, replaced: nat, stopped: nat) {

    function Balance(): int {
      starts - fires - replaced - stopped - (if alarm.running then 1 else 0)
    }
  }

  function Record(l: Ledger, c: Command): Ledger {
    var l' := l.(alarm := Obey(l.alarm, c));
    match c
    case Start(_, _) => l'.(starts := l.starts + 1, replaced := l.replaced + if l.alarm.running then 1 else 0)
    case Stop => l'.(stopped := l.stopped + if l.alarm.running then 1 else 0)
  }

  function RecordAll(l: Ledger, cs: seq<Command>): Ledger
    decreases cs
  {
    if cs == [] then l else RecordAll(Record(l, cs[0]), cs[1..])
  }

  function RecordOp(l: Ledger, op: Op): Ledger {
    match op
    case Do(c) => Record(l, c)
    case Process(clockUs, callback) =>
      if Due(l.alarm, GetNow(clockUs)) then
        RecordAll(l.(alarm := l.alarm.(running := false), fires := l.fires + 1), callback)
      else l
  }

  function RecordRun(l: Ledger, ops: seq<Op>): Ledger
    decreases ops
  {
    if ops == [] then l else RecordRun(RecordOp(l, ops[0]), ops[1..])
  }

  function AlarmAfter(a: AlarmState, ops: seq<Op>): AlarmState
    decreases ops
  {
    if ops == [] then a
    else
      var a' := match ops[0]
        case Do(c) => Obey(a, c)
        case Process(clockUs, callback) => Processed(a, GetNow(clockUs), callback);
      AlarmAfter(a', ops[1..])
  }

  lemma {:induction false} CallbackKeepsBalance(l: Ledger, cs: seq<Command>)
    ensures RecordAll(l, cs).Balance() == l.Balance()
    ensures RecordAll(l, cs).alarm == ObeyAll(l.alarm, cs)
    decreases cs
  {
    if cs != [] {
      CallbackKeepsBalance(Record(l, cs[0]), cs[1..]);
    }
  }

  /**
    Over every run, callbacks that re-arm or stop the alarm included, each start has fired,
    was replaced, was stopped, or is the one still running.
   */
  lemma {:induction false} StartsAreConserved(l: Ledger, ops: seq<Op>)
    ensures RecordRun(l, ops).Balance() == l.Balance()
    ensures RecordRun(l, ops).alarm == AlarmAfter(l.alarm, ops)
    decreases ops
  {
    if ops != [] {
      match ops[0] {
        case Do(_) =>
        case Process(clockUs, callback) =>
          if Due(l.alarm, GetNow(clockUs)) {
            CallbackKeepsBalance(l.(alarm := l.alarm.(running := false), fires := l.fires + 1), callback);
          }
      }
      StartsAreConserved(RecordOp(l, ops[0]), ops[1..]);
    }
  }

  lemma {:induction false} LastCommandWins(a: AlarmState, cs: seq<Command>, c: Command)
    ensures ObeyAll(a, cs + [c]) == Obey(ObeyAll(a, cs), c)
    decreases cs
  {
    if cs != [] {
      assert (cs + [c])[1..] == cs[1..] + [c];
      LastCommandWins(Obey(a, cs[0]), cs[1..], c);
    }
  }

  lemma {:induction false} ObeyAllConcat(a: AlarmState, cs: seq<Command>, ds: seq<Command>)
    ensures ObeyAll(a, cs + ds) == ObeyAll(ObeyAll(a, cs), ds)
    decreases cs
  {
    if cs == [] {
      assert cs + ds == ds;
    } else {
      assert (cs + ds)[1..] == cs[1..] + ds;
      ObeyAllConcat(Obey(a, cs[0]), cs[1..], ds);
    }
  }

  /** Whether the alarm fires after some commands depends on the last of them alone. */
  lemma LastCommandDecides(a: AlarmState, cs: seq<Command>, now: uint32)
    ensures Due(ObeyAll(a, cs), now) <==>
              if cs == [] then a.running && a.t0 + a.dt <= now
              else cs[|cs| - 1].Start? && cs[|cs| - 1].t0 + cs[|cs| - 1].dt <= now
  {
    if cs != [] {
      var front := cs[..|cs| - 1];
      assert cs == front + [cs[|cs| - 1]];
      LastCommandWins(a, front, cs[|cs| - 1]);
    }
  }

  /** A re-arm made by the fired callback survives the call that fired. */
  lemma RearmInCallbackIsKept(a: AlarmState, now: uint32, before: seq<Command>, t0: uint32, dt: uint32)
    requires Due(a, now)
    ensures Processed(a, now, before + [Start(t0, dt)]) == AlarmState(t0, dt, true)
  {
    LastCommandWins(a.(running := false), before, Start(t0, dt));
  }

  // ---------- The static variables ----------

  class Alarm {
    var t0: uint32
    var dt: uint32
    var isRunning: bool

    function State(): AlarmState
      reads this
    {
      AlarmState(t0, dt, isRunning)
    }

    constructor ()
      ensures State() == AlarmState(0, 0, false)
    {
      t0, dt, isRunning := 0, 0, false;
    }

    method StartAt(aT0: uint32, aDt: uint32)
      modifies this
      ensures State() == Obey(old(State()), Start(aT0, aDt))
      ensures t0 == aT0 && dt == aDt && isRunning
    {
      t0 := aT0;
      dt := aDt;
      isRunning := true;
    }

    method Stop()
      modifies this
      ensures State() == Obey(old(State()), Command.Stop)
      ensures t0 == old(t0) && dt == old(dt) && !isRunning
    {
      isRunning := false;
    }

    /** Stands for the OpenThread code that a callback runs. */
    method Callback(commands: seq<Command>)
      modifies this
      ensures State() == ObeyAll(old(State()), commands)
    {
      var rest := commands;
      while rest != []
        invariant ObeyAll(State(), rest) == ObeyAll(old(State()), commands)
        decreases |rest|
      {
        match rest[0] {
          case Start(aT0, aDt) => StartAt(aT0, aDt);
          case Stop => Stop();
        }
        rest := rest[1..];
      }
    }

    /** `platformAlarmUpdate`, given the microsecond timer; the result is the context's new timeout. */
    method Update(clockUs: nat) returns (timeout: Timeval)
      ensures timeout == TimeoutFor(State(), GetNow(clockUs))
    {
      var now := GetNow(clockUs);
      if !isRunning {
        timeout := Timeval(INT32_MAX, 0);
      } else if dt + t0 > now {
        var remaining := dt + t0 - now;
        timeout := Timeval(remaining / MS_PER_S, (remaining % MS_PER_S) * US_PER_MS);
      } else {
        timeout := Timeval(0, 0);
      }
    }

    /** `platformAlarmProcess` with a callback that issues the given commands. */
    method Process(clockUs: nat, callback: seq<Command>) returns (fired: bool)
      modifies this
      ensures fired == (old(isRunning) && old(t0) + old(dt) <= GetNow(clockUs))
      ensures State() == Processed(old(State()), GetNow(clockUs), callback)
      ensures !fired ==> State() == old(State())
      ensures fired ==> State() == ObeyAll(AlarmState(old(t0), old(dt), false), callback)
    {
      fired := false;
      if isRunning {
        if t0 + dt <= GetNow(clockUs) {
          isRunning := false;
          fired := true;
          Callback(callback);
        }
      }
    }
  }
}
