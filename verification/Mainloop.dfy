/**
  The main-loop context and phases of src/system.c, with the descriptor registration of
  src/vfs_event.c, src/uart.c and src/spinel_hdlc.cpp.
 */
module Mainloop {
  import opened Platform
  import AlarmMilli
  import EventFile

  /** The value of an `otSysMainloopContext`. */
  datatype Context = Context(
    readFds: set<int>, writeFds: set<int>, errorFds: set<int>, maxFd: int, timeout: Timeval)

  /** The descriptors held by the event, CLI and radio drivers after a successful start. */
  datatype Descriptors = Descriptors(event: nat, cli: nat, radio: nat)

  const FRESH_CONTEXT: Context := Context({}, {}, {}, -1, Timeval(10, 0))

  function WithReader(c: Context, fd: int): Context {
    c.(readFds := c.readFds + {fd}, maxFd := if fd > c.maxFd then fd else c.maxFd)
  }

  /** `otSysMainloopUpdate`: event, alarm, CLI, radio, then pending tasklets cancel the sleep. */
  function Updated(c: Context, fds: Descriptors, alarm: AlarmMilli.AlarmState, clockUs: nat, pending: bool): Context {
    var c1 := WithReader(c, fds.event);
    var c2 := c1.(timeout := AlarmMilli.TimeoutFor(alarm, AlarmMilli.GetNow(clockUs)));
    var c3 := WithReader(WithReader(c2, fds.cli), fds.radio);
    if pending then c3.(timeout := Timeval(0, 0)) else c3
  }

  predicate IsMaximum(m: int, s: set<int>) {
    m in s && forall x :: x in s ==> x <= m
  }

  /**
    From a fresh context every Update watches exactly the three descriptors, with their
    maximum, and leaves a normalised timeout that fits a signed 32-bit `time_t`: zero when
    tasklets are pending or the alarm is due, else the alarm's remaining milliseconds.
   */
  lemma PollCoverage(fds: Descriptors, alarm: AlarmMilli.AlarmState, clockUs: nat, pending: bool)
    ensures var c := Updated(FRESH_CONTEXT, fds, alarm, clockUs, pending);
            var now := AlarmMilli.GetNow(clockUs);
            && c.readFds == {fds.event as int, fds.cli, fds.radio}
            && c.writeFds == {} && c.errorFds == {}
            && IsMaximum(c.maxFd, c.readFds)
            && c.timeout.Normalised() && c.timeout.sec <= 0x7fff_ffff
            && (c.timeout.Micros() == 0 <==> pending || (alarm.running && alarm.t0 + alarm.dt <= now))
            && (!pending && alarm.running && alarm.t0 + alarm.dt > now ==>
                  c.timeout.Micros() == (alarm.t0 + alarm.dt - now) * 1000)
            && (!pending && !alarm.running ==> c.timeout == Timeval(0x7fff_ffff, 0))
  {
    AlarmMilli.TimeoutMeaning(alarm, AlarmMilli.GetNow(clockUs));
  }

  class MainloopContext {
    var readFds: set<int>
    var writeFds: set<int>
    var errorFds: set<int>
    var maxFd: int
    var timeout: Timeval

    function Value(): Context
      reads this
    {
      Context(readFds, writeFds, errorFds, maxFd, timeout)
    }

    /** `otSysMainloopInit` */
    constructor ()
      ensures Value() == FRESH_CONTEXT == Context({}, {}, {}, -1, Timeval(10, 0))
    {
      readFds, writeFds, errorFds := {}, {}, {};
      maxFd := -1;
      timeout := Timeval(10, 0);
    }

    /** `platformVfsEventUpdate`, `platformCliUartUpdate` and `HdlcInterface::Update` */
    method AddReader(fd: int)
      modifies this
      ensures Value() == WithReader(old(Value()), fd)
    {
      readFds := readFds + {fd};
      if fd > maxFd {
        maxFd := fd;
      }
    }
  }

  /** `otSysMainloopUpdate` */
  method Update(context: MainloopContext, fds: Descriptors, alarm: AlarmMilli.Alarm, clockUs: nat, pending: bool)
    modifies context
    ensures context.Value() == Updated(old(context.Value()), fds, alarm.State(), clockUs, pending)
    ensures alarm.State() == old(alarm.State())
  {
    context.AddReader(fds.event);
    context.timeout := alarm.Update(clockUs);
    context.AddReader(fds.cli);
    context.AddReader(fds.radio);
    if pending {
      context.timeout := Timeval(0, 0);
    }
  }

  /** What the environment does in one `otSysMainloopProcess`. */
  datatype Activity = Activity(
    cliRead: int,                          // result of reading the CLI UART
    cli: seq<AlarmMilli.Command>,          // what the received input does to the alarm
    radio: seq<AlarmMilli.Command>,        // what the radio callbacks do to it
    clockUs: nat,                          // the timer when the alarm is processed
    fired: seq<AlarmMilli.Command>)        // what the alarm callback does to it

  /** The alarm when its own turn comes, last of the four phases. */
  function AlarmBeforeTurn(c: Context, fds: Descriptors, alarm: AlarmMilli.AlarmState, env: Activity)
    : AlarmMilli.AlarmState
  {
    var heard := fds.cli in c.readFds && env.cliRead > 0;
    AlarmMilli.ObeyAll(if heard then AlarmMilli.ObeyAll(alarm, env.cli) else alarm, env.radio)
  }

  /**
    The alarm's turn comes last, so everything heard before it in this Process counts at once,
    and the last command decides: a re-arm into the past fires now, a stopped alarm does not,
    and an alarm nobody touched fires if it was due. CLI input counts only if it was read.
   */
  lemma CommandsCountAtOnce(c: Context, fds: Descriptors, alarm: AlarmMilli.AlarmState, env: Activity)
    ensures var heard := (if fds.cli in c.readFds && env.cliRead > 0 then env.cli else []) + env.radio;
            var now := AlarmMilli.GetNow(env.clockUs);
            && AlarmBeforeTurn(c, fds, alarm, env) == AlarmMilli.ObeyAll(alarm, heard)
            && (AlarmMilli.Due(AlarmBeforeTurn(c, fds, alarm, env), now) <==>
                  if heard == [] then alarm.running && alarm.t0 + alarm.dt <= now
                  else heard[|heard| - 1].Start? && heard[|heard| - 1].t0 + heard[|heard| - 1].dt <= now)
  {
    var cli := if fds.cli in c.readFds && env.cliRead > 0 then env.cli else [];
    AlarmMilli.ObeyAllConcat(alarm, cli, env.radio);
    AlarmMilli.LastCommandDecides(alarm, cli + env.radio, AlarmMilli.GetNow(env.clockUs));
  }

  /** `otSysMainloopProcess`: event, CLI, radio, alarm. */
  method Process(context: MainloopContext, fds: Descriptors, event: EventFile.EventDevice, alarm: AlarmMilli.Alarm,
                 env: Activity)
    returns (fired: bool)
    modifies event, alarm
    ensures event.Value() == if fds.event in context.readFds
                             then EventFile.Consumed(old(event.Value()), fds.event) else old(event.Value())
    ensures event.lockDepth == old(event.lockDepth)
    ensures event.triggers == old(event.triggers) && event.signal == old(event.signal)
    ensures var a := AlarmBeforeTurn(context.Value(), fds, old(alarm.State()), env);
            && fired == AlarmMilli.Due(a, AlarmMilli.GetNow(env.clockUs))
            && alarm.State() == AlarmMilli.Processed(a, AlarmMilli.GetNow(env.clockUs), env.fired)
    ensures var heard := (if fds.cli in context.readFds && env.cliRead > 0 then env.cli else []) + env.radio;
            var now := AlarmMilli.GetNow(env.clockUs);
            fired <==>
              if heard == [] then old(alarm.isRunning) && old(alarm.t0) + old(alarm.dt) <= now
              else heard[|heard| - 1].Start? && heard[|heard| - 1].t0 + heard[|heard| - 1].dt <= now
  {
    CommandsCountAtOnce(context.Value(), fds, alarm.State(), env);
    if fds.event in context.readFds {
      var _ := event.Read(fds.event);
    }
    if fds.cli in context.readFds {
      if env.cliRead > 0 {
        alarm.Callback(env.cli);
      }
    }
    alarm.Callback(env.radio);
    fired := alarm.Process(env.clockUs, env.fired);
  }
}
