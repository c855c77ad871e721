/**
  The radio sender of src/spinel_hdlc.cpp: `HdlcInterface::Write` and `WaitForWritable`.

  Every result of `write`, `select` and the clock is supplied by the environment as a script.
  A script is finite, so a call may end `Unfinished`, with its next system call still to come;
  what holds for every script therefore holds at every moment of every call.
 */
module Hdlc {
  import opened Platform
  import opened Uart

  const MAX_WAIT_MS: nat := 2000
  const MAX_WAIT_US: nat := MAX_WAIT_MS * US_PER_MS

  datatype Errno = EAGAIN | EWOULDBLOCK | EINTR | OtherErrno

  datatype Outcome = Done | Failed | Dead | Unfinished

  /** One `select` in `WaitForWritable`, and the clock afterwards. */
  datatype SelectAnswer = SelectAnswer(rval: int, writable: bool, errno: Errno, clockUs: nat)

  /** One pass of the loop of `Write`: a `write`, and the wait it may lead to. */
  datatype Attempt = Attempt(rval: int, errno: Errno, enterUs: nat, answers: seq<SelectAnswer>)

  // ---------- WaitForWritable ----------

  /** The answer ends the wait whose deadline is `end`. */
  predicate Decides(a: SelectAnswer, end: nat) {
    a.rval > 0 || (a.rval < 0 && a.errno != EINTR) || a.clockUs >= end
  }

  function Verdict(a: SelectAnswer): Outcome {
    if a.rval > 0 then (if a.writable then Done else Dead)
    else if a.rval < 0 && a.errno != EINTR then Dead
    else Failed
  }

  /** How many answers a wait consumes: up to the first one that decides. */
  function Consumed(answers: seq<SelectAnswer>, end: nat): (n: nat)
    ensures n <= |answers|
    ensures forall j :: 0 <= j < n - 1 ==> !Decides(answers[j], end)
    ensures n < |answers| ==> n > 0 && Decides(answers[n - 1], end)
  {
    if answers == [] then 0
    else if Decides(answers[0], end) then 1
    else
      var n := Consumed(answers[1..], end);
      assert forall j :: 0 <= j < n - 1 ==> answers[1..][j] == answers[j + 1];
      n + 1
  }

  function WaitOutcome(enterUs: nat, answers: seq<SelectAnswer>): Outcome {
    var n := Consumed(answers, enterUs + MAX_WAIT_US);
    if n > 0 && Decides(answers[n - 1], enterUs + MAX_WAIT_US) then Verdict(answers[n - 1]) else Unfinished
  }

  /** The last clock sample before the k-th `select`. */
  function ClockBefore(enterUs: nat, answers: seq<SelectAnswer>, k: nat): nat
    requires k <= |answers|
  {
    if k == 0 then enterUs else answers[k - 1].clockUs
  }

  /** The clock when the wait returns, or at its latest sample. */
  function ExitClock(enterUs: nat, answers: seq<SelectAnswer>): nat {
    ClockBefore(enterUs, answers, Consumed(answers, enterUs + MAX_WAIT_US))
  }

  /** A `select` as it was called. */
  datatype SelectCall = SelectCall(beforeUs: nat, timeout: Timeval, mode: LineEnding)

  /** How many times a wait calls `select`; an unfinished one is inside its last call. */
  function SelectCount(enterUs: nat, answers: seq<SelectAnswer>): nat {
    if WaitOutcome(enterUs, answers) == Unfinished then |answers| + 1
    else Consumed(answers, enterUs + MAX_WAIT_US)
  }

  /**
    The record of a wait: every timeout is normalised and reaches exactly from the last clock
    sample to the deadline, and the line-ending mode is the given one all along.
   */
  predicate KeepsDeadline(calls: seq<SelectCall>, enterUs: nat, answers: seq<SelectAnswer>, mode: LineEnding) {
    && |calls| <= |answers| + 1
    && forall k :: 0 <= k < |calls| ==>
         && calls[k].beforeUs == ClockBefore(enterUs, answers, k)
         && calls[k].timeout.Normalised()
         && calls[k].beforeUs + calls[k].timeout.Micros() == enterUs + 2_000_000
         && calls[k].mode == mode
  }

  // ---------- How a wait ends ----------

  /** `select` gave no result, or was interrupted. */
  predicate Again(a: SelectAnswer) {
    a.rval == 0 || (a.rval < 0 && a.errno == EINTR)
  }

  /** The first k answers gave no result, each before two seconds had passed since entry. */
  predicate StillWaiting(enterUs: nat, answers: seq<SelectAnswer>, k: nat) {
    k <= |answers| && forall j :: 0 <= j < k ==> Again(answers[j]) && answers[j].clockUs < enterUs + 2_000_000
  }

  /** Answer k is reached, and it is one that calls for this outcome. */
  predicate EndsAt(enterUs: nat, answers: seq<SelectAnswer>, k: nat, outcome: Outcome) {
    && k < |answers|
    && StillWaiting(enterUs, answers, k)
    && match outcome
       case Done => answers[k].rval > 0 && answers[k].writable
       case Dead => (answers[k].rval > 0 && !answers[k].writable) || (answers[k].rval < 0 && answers[k].errno != EINTR)
       case Failed => Again(answers[k]) && answers[k].clockUs >= enterUs + 2_000_000
       case Unfinished => false
  }

  lemma WaitDecidedBy(enterUs: nat, answers: seq<SelectAnswer>, k: nat, outcome: Outcome)
    requires EndsAt(enterUs, answers, k, outcome)
    ensures WaitOutcome(enterUs, answers) == outcome
    ensures SelectCount(enterUs, answers) == k + 1 && ExitClock(enterUs, answers) == answers[k].clockUs
  {
    assert Decides(answers[k], enterUs + MAX_WAIT_US);
  }

  lemma WaitIsDecided(enterUs: nat, answers: seq<SelectAnswer>)
    ensures var outcome, n := WaitOutcome(enterUs, answers), Consumed(answers, enterUs + MAX_WAIT_US);
            if outcome == Unfinished then StillWaiting(enterUs, answers, |answers|)
            else n > 0 && EndsAt(enterUs, answers, n - 1, outcome)
  {
  }

  /**
    How a wait ends, from the answers alone. It is done at the first result if that is a
    writable port, fatal if it is an unwritable port or an error other than EINTR; it fails
    once two seconds have passed without a result, and otherwise goes on.
   */
  lemma WaitMeaning(enterUs: nat, answers: seq<SelectAnswer>, outcome: Outcome)
    ensures WaitOutcome(enterUs, answers) == outcome <==>
              if outcome == Unfinished then StillWaiting(enterUs, answers, |answers|)
              else exists k: nat :: EndsAt(enterUs, answers, k, outcome)
    ensures WaitOutcome(enterUs, answers) == Unfinished ==> SelectCount(enterUs, answers) == |answers| + 1
    ensures forall k: nat | EndsAt(enterUs, answers, k, outcome) ::
              SelectCount(enterUs, answers) == k + 1 && ExitClock(enterUs, answers) == answers[k].clockUs
  {
    WaitIsDecided(enterUs, answers);
    forall k: nat | EndsAt(enterUs, answers, k, outcome)
      ensures WaitOutcome(enterUs, answers) == outcome
      ensures SelectCount(enterUs, answers) == k + 1 && ExitClock(enterUs, answers) == answers[k].clockUs
    {
      WaitDecidedBy(enterUs, answers, k, outcome);
    }
  }

  // ---------- How long a wait takes ----------

  /** The clock strictly advances with every `select`. */
  predicate Advancing(enterUs: nat, answers: seq<SelectAnswer>) {
    forall k :: 0 <= k < |answers| ==> answers[k].clockUs > ClockBefore(enterUs, answers, k)
  }

  /** No `select` returns later than its timeout asks, which by KeepsDeadline is the deadline. */
  predicate Punctual(enterUs: nat, answers: seq<SelectAnswer>) {
    forall k :: 0 <= k < |answers| ==>
      ClockBefore(enterUs, answers, k) <= answers[k].clockUs <= enterUs + MAX_WAIT_US
  }

  lemma {:induction false} ClockGrows(enterUs: nat, answers: seq<SelectAnswer>, k: nat)
    requires Advancing(enterUs, answers) && k <= |answers|
    ensures ClockBefore(enterUs, answers, k) >= enterUs + k
  {
    if k > 0 {
      ClockGrows(enterUs, answers, k - 1);
    }
  }

  /** With an advancing clock a wait ends within as many `select` calls as microseconds remain. */
  lemma WaitEnds(enterUs: nat, answers: seq<SelectAnswer>)
    requires Advancing(enterUs, answers) && |answers| >= MAX_WAIT_US
    ensures WaitOutcome(enterUs, answers) != Unfinished
  {
    var end := enterUs + MAX_WAIT_US;
    if Consumed(answers, end) == |answers| {
      ClockGrows(enterUs, answers, |answers|);
    }
  }

  /**
    A wait fails only once the clock has reached the deadline; under a punctual `select` it
    fails exactly `kMaxWaitTime` after entry, and no wait is longer.
   */
  lemma WaitDeadline(enterUs: nat, answers: seq<SelectAnswer>)
    ensures WaitOutcome(enterUs, answers) == Failed ==> ExitClock(enterUs, answers) >= enterUs + MAX_WAIT_US
    ensures Punctual(enterUs, answers) ==> enterUs <= ExitClock(enterUs, answers) <= enterUs + MAX_WAIT_US
    ensures Punctual(enterUs, answers) && WaitOutcome(enterUs, answers) == Failed ==>
              ExitClock(enterUs, answers) == enterUs + MAX_WAIT_US
  {
    if Punctual(enterUs, answers) {
      PunctualGrows(enterUs, answers, Consumed(answers, enterUs + MAX_WAIT_US));
    }
  }

  lemma {:induction false} PunctualGrows(enterUs: nat, answers: seq<SelectAnswer>, k: nat)
    requires Punctual(enterUs, answers) && k <= |answers|
    ensures enterUs <= ClockBefore(enterUs, answers, k) <= enterUs + MAX_WAIT_US
  {
    if k > 0 {
      PunctualGrows(enterUs, answers, k - 1);
    }
  }

  // ---------- Write ----------

  predicate Fatal(a: Attempt) {
    a.rval < 0 && a.errno == OtherErrno
  }

  /** How a call ended, how many bytes it sent, how often and how long it waited. */
  datatype Result = Result(outcome: Outcome, sent: nat, waits: nat, waitedUs: int)

  /** `Write` of `n` bytes. A `write` that claims more than it was given fails the assertion. */
  function Sending(n: nat, attempts: seq<Attempt>): Result
    decreases attempts
  {
    if n == 0 then Result(Done, 0, 0, 0)
    else if attempts == [] then Result(Unfinished, 0, 0, 0)
    else
      var a := attempts[0];
      if a.rval > n then Result(Dead, n, 0, 0)
      else if a.rval > 0 then
        var r := Sending(n - a.rval, attempts[1..]);
        r.(sent := r.sent + a.rval)
      else if Fatal(a) then Result(Dead, 0, 0, 0)
      else
        var w := WaitOutcome(a.enterUs, a.answers);
        var us := ExitClock(a.enterUs, a.answers) - a.enterUs;
        if w == Done then
          var r := Sending(n, attempts[1..]);
          r.(waits := r.waits + 1, waitedUs := r.waitedUs + us)
        else Result(w, 0, 1, us)
  }

  // ---------- How a send ends ----------

  /** The result of this `write` is followed by a wait. */
  predicate Retries(a: Attempt) {
    a.rval == 0 || (a.rval < 0 && (a.errno == EAGAIN || a.errno == EWOULDBLOCK || a.errno == EINTR))
  }

  /** The bytes taken by the first k writes. */
  function SentBy(attempts: seq<Attempt>, k: nat): nat
    requires k <= |attempts|
  {
    if k == 0 then 0
    else (if attempts[0].rval > 0 then attempts[0].rval else 0) + SentBy(attempts[1..], k - 1)
  }

  /** How many of the first k writes are followed by a wait. */
  function RetriesBy(attempts: seq<Attempt>, k: nat): nat
    requires k <= |attempts|
  {
    if k == 0 then 0 else (if Retries(attempts[0]) then 1 else 0) + RetriesBy(attempts[1..], k - 1)
  }

  /** After k writes, each of which took something or was followed by a wait for a writable port, bytes are left. */
  predicate StillSending(n: nat, attempts: seq<Attempt>, k: nat) {
    && k <= |attempts|
    && SentBy(attempts, k) < n
    && forall j :: 0 <= j < k ==>
         attempts[j].rval > 0 || (Retries(attempts[j]) && WaitOutcome(attempts[j].enterUs, attempts[j].answers) == Done)
  }

  /** The write of this index is reached, and it is one that calls for this outcome. */
  predicate SendEndsAt(n: nat, attempts: seq<Attempt>, k: nat, outcome: Outcome) {
    && k < |attempts|
    && StillSending(n, attempts, k)
    && var a, left := attempts[k], n - SentBy(attempts, k);
       match outcome
       case Done => a.rval == left
       case Dead =>
         || a.rval > left
         || (a.rval < 0 && !Retries(a))
         || (Retries(a) && WaitOutcome(a.enterUs, a.answers) == Dead)
       case _ => Retries(a) && WaitOutcome(a.enterUs, a.answers) == outcome
  }

  /** One pass of the loop of `Write`, for every result of the first `write`. */
  lemma FirstAttempt(n: nat, attempts: seq<Attempt>)
    requires n > 0 && attempts != []
    ensures var a, r, rest := attempts[0], Sending(n, attempts), attempts[1..];
            && (a.rval > n ==> r.outcome == Dead && r.sent == n && r.waits == 0)
            && (0 < a.rval <= n ==>
                  var more := Sending(n - a.rval, rest);
                  r.outcome == more.outcome && r.sent == a.rval + more.sent && r.waits == more.waits)
            && (a.rval < 0 && !Retries(a) ==> r.outcome == Dead && r.sent == 0 && r.waits == 0)
            && (Retries(a) && WaitOutcome(a.enterUs, a.answers) == Done ==>
                  var more := Sending(n, rest);
                  r.outcome == more.outcome && r.sent == more.sent && r.waits == more.waits + 1)
            && (Retries(a) && WaitOutcome(a.enterUs, a.answers) != Done ==>
                  r.outcome == WaitOutcome(a.enterUs, a.answers) && r.sent == 0 && r.waits == 1)
  {
    hide WaitOutcome, ExitClock;
  }

  lemma {:induction false} SendingDecidedBy(n: nat, attempts: seq<Attempt>, k: nat, outcome: Outcome)
    requires SendEndsAt(n, attempts, k, outcome)
    ensures var r, left := Sending(n, attempts), n - SentBy(attempts, k);
            && r.outcome == outcome
            && r.sent == (if attempts[k].rval >= left then n else SentBy(attempts, k))
            && r.waits == RetriesBy(attempts, k) + if Retries(attempts[k]) then 1 else 0
    decreases k
  {
    FirstAttempt(n, attempts);
    hide WaitOutcome, ExitClock, Sending;
    if k > 0 {
      var a, rest := attempts[0], attempts[1..];
      assert forall j :: 0 <= j < |rest| ==> rest[j] == attempts[j + 1];
      SendingDecidedBy(if a.rval > 0 then n - a.rval else n, rest, k - 1, outcome);
    }
  }

  lemma {:induction false} SendingIsDecided(n: nat, attempts: seq<Attempt>) returns (k: nat)
    requires n > 0
    ensures var outcome := Sending(n, attempts).outcome;
            SendEndsAt(n, attempts, k, outcome) || (outcome == Unfinished && StillSending(n, attempts, |attempts|))
    decreases attempts
  {
    k := 0;
    if attempts != [] {
      FirstAttempt(n, attempts);
      hide WaitOutcome, ExitClock, Sending;
      var a, rest := attempts[0], attempts[1..];
      assert forall j :: 0 <= j < |rest| ==> rest[j] == attempts[j + 1];
      if 0 < a.rval < n || (Retries(a) && WaitOutcome(a.enterUs, a.answers) == Done) {
        var before := SendingIsDecided(if a.rval > 0 then n - a.rval else n, rest);
        k := before + 1;
      }
    }
  }

  /**
    How a send of at least one byte ends, from the results of `write` and its waits alone. It
    is done when a write takes all that is left; it fails exactly when the last wait reached
    fails; it is fatal exactly when that wait is, or a write takes too much or fails with an
    error other than EAGAIN, EWOULDBLOCK and EINTR. There is one wait per retried write.
   */
  lemma SendingMeaning(n: nat, attempts: seq<Attempt>, outcome: Outcome)
    requires n > 0
    ensures Sending(n, attempts).outcome == outcome <==>
              (exists k: nat :: SendEndsAt(n, attempts, k, outcome))
              || (outcome == Unfinished && StillSending(n, attempts, |attempts|))
    ensures forall k: nat | SendEndsAt(n, attempts, k, outcome) ::
              && Sending(n, attempts).waits == RetriesBy(attempts, k) + (if Retries(attempts[k]) then 1 else 0)
              && (outcome != Done && outcome != Dead ==> Sending(n, attempts).sent == SentBy(attempts, k))
  {
    var last := SendingIsDecided(n, attempts);
    forall k: nat | SendEndsAt(n, attempts, k, outcome)
      ensures Sending(n, attempts).outcome == outcome
      ensures Sending(n, attempts).waits == RetriesBy(attempts, k) + (if Retries(attempts[k]) then 1 else 0)
      ensures outcome != Done && outcome != Dead ==> Sending(n, attempts).sent == SentBy(attempts, k)
    {
      SendingDecidedBy(n, attempts, k, outcome);
    }
    if StillSending(n, attempts, |attempts|) {
      StillUnfinished(n, attempts);
    }
  }

  lemma {:induction false} StillUnfinished(n: nat, attempts: seq<Attempt>)
    requires StillSending(n, attempts, |attempts|)
    ensures Sending(n, attempts).outcome == Unfinished
    decreases attempts
  {
    if attempts != [] {
      FirstAttempt(n, attempts);
      hide WaitOutcome, ExitClock, Sending;
      var a, rest := attempts[0], attempts[1..];
      assert forall j :: 0 <= j < |rest| ==> rest[j] == attempts[j + 1];
      StillUnfinished(if a.rval > 0 then n - a.rval else n, rest);
    }
  }

  // ---------- What the waits record ----------

  /** The attempts whose wait is reached, in order. */
  function WaitsReached(n: nat, attempts: seq<Attempt>): seq<Attempt>
    decreases attempts
  {
    if n == 0 || attempts == [] || attempts[0].rval > n || Fatal(attempts[0]) then []
    else if attempts[0].rval > 0 then WaitsReached(n - attempts[0].rval, attempts[1..])
    else if WaitOutcome(attempts[0].enterUs, attempts[0].answers) == Done then
      [attempts[0]] + WaitsReached(n, attempts[1..])
    else [attempts[0]]
  }

  lemma {:induction false} WaitsReachedAreCounted(n: nat, attempts: seq<Attempt>)
    ensures |WaitsReached(n, attempts)| == Sending(n, attempts).waits
    decreases attempts
  {
    if n > 0 && attempts != [] {
      if 0 < attempts[0].rval <= n {
        WaitsReachedAreCounted(n - attempts[0].rval, attempts[1..]);
      } else if attempts[0].rval <= 0 {
        WaitsReachedAreCounted(n, attempts[1..]);
      }
    }
  }

  /** The record of one complete wait, in CRLF mode. */
  predicate WaitRecorded(calls: seq<SelectCall>, a: Attempt) {
    && |calls| == SelectCount(a.enterUs, a.answers)
    && KeepsDeadline(calls, a.enterUs, a.answers, Crlf)
  }

  /** One record for every wait, none missing. */
  predicate AllRecorded(records: seq<seq<SelectCall>>, waits: seq<Attempt>) {
    && |records| == |waits|
    && forall k :: 0 <= k < |waits| ==> WaitRecorded(records[k], waits[k])
  }

  lemma NothingRecorded(waits: seq<Attempt>)
    ensures AllRecorded([], [])
    ensures [] + waits == waits
  {
  }

  lemma RecordOneMore(records: seq<seq<SelectCall>>, waits: seq<Attempt>, calls: seq<SelectCall>, a: Attempt,
                      rest: seq<Attempt>)
    requires AllRecorded(records, waits) && WaitRecorded(calls, a)
    ensures AllRecorded(records + [calls], waits + [a])
    ensures waits + [a] + rest == waits + ([a] + rest)
    ensures rest == [] ==> waits + [a] + rest == waits + [a]
  {
    hide WaitRecorded;
  }

  /** The same run seen by the driver: the mode is switched around every single `write`. */
  function Driven(w: Wires, frame: seq<uint8>, attempts: seq<Attempt>): Wires
    decreases attempts
  {
    if frame == [] || attempts == [] then w
    else
      var a := attempts[0];
      var w' := WrittenToRadio(w.(mode := Lf), frame, a.rval).(mode := Crlf);
      if a.rval > |frame| then w'
      else if a.rval > 0 then Driven(w', frame[a.rval..], attempts[1..])
      else if Fatal(a) || WaitOutcome(a.enterUs, a.answers) != Done then w'
      else Driven(w', frame, attempts[1..])
  }

  /**
    Whatever `write` and the waits return, the wire has received a prefix of the frame, in
    order, with nothing lost or repeated; the whole of it on success, and less on failure.
   */
  lemma {:induction false} WritesAPrefix(w: Wires, frame: seq<uint8>, attempts: seq<Attempt>)
    ensures var r := Sending(|frame|, attempts);
            && r.sent <= |frame|
            && Driven(w, frame, attempts).radio == w.radio + frame[..r.sent]
            && Driven(w, frame, attempts).cli == w.cli
            && (r.outcome == Done ==> r.sent == |frame|)
            && (r.outcome == Failed || r.outcome == Unfinished ==> r.sent < |frame|)
    decreases attempts
  {
    hide WaitOutcome, ExitClock, Fatal;
    if frame != [] && attempts != [] {
      var a := attempts[0];
      var w' := WrittenToRadio(w.(mode := Lf), frame, a.rval).(mode := Crlf);
      if 0 < a.rval <= |frame| {
        WritesAPrefix(w', frame[a.rval..], attempts[1..]);
        var more := Sending(|frame| - a.rval, attempts[1..]).sent;
        PrefixesJoin(w.radio, frame, a.rval, more);
      } else if a.rval <= 0 && !Fatal(a) && WaitOutcome(a.enterUs, a.answers) == Done {
        WritesAPrefix(w', frame, attempts[1..]);
      }
    }
  }

  lemma PrefixesJoin(wire: seq<uint8>, frame: seq<uint8>, n: nat, m: nat)
    requires n + m <= |frame|
    ensures wire + frame[..n] + frame[n..][..m] == wire + frame[..n + m]
  {
  }

  lemma {:induction false} ModeAfterWrite(w: Wires, frame: seq<uint8>, attempts: seq<Attempt>)
    requires w.mode == Crlf
    ensures Driven(w, frame, attempts).mode == Crlf
    decreases attempts
  {
    if frame != [] && attempts != [] {
      var a := attempts[0];
      var w' := WrittenToRadio(w.(mode := Lf), frame, a.rval).(mode := Crlf);
      if 0 < a.rval <= |frame| {
        ModeAfterWrite(w', frame[a.rval..], attempts[1..]);
      } else if a.rval <= 0 {
        ModeAfterWrite(w', frame, attempts[1..]);
      }
    }
  }

  // ---------- The interface object ----------

  class HdlcInterface {
    /** The driver behind the radio UART descriptor. */
    const uart: UartDriver

    constructor (uart: UartDriver)
      ensures this.uart == uart
    {
      this.uart := uart;
    }

    /** `WaitForWritable`; `calls` is the record of its `select` calls. */
    method WaitForWritable(enterUs: nat, answers: seq<SelectAnswer>)
      returns (outcome: Outcome, calls: seq<SelectCall>)
      ensures outcome == WaitOutcome(enterUs, answers)
      ensures |calls| == SelectCount(enterUs, answers)
      ensures KeepsDeadline(calls, enterUs, answers, uart.mode)
    {
      var timeout := Timeval(MAX_WAIT_MS / MS_PER_S, (MAX_WAIT_MS % MS_PER_S) * US_PER_MS);
      var now := enterUs;
      var end := now + MAX_WAIT_US;
      var k := 0;
      calls := [];
      while true
        invariant 0 <= k <= |answers| && |calls| == k
        invariant end == enterUs + MAX_WAIT_US
        invariant timeout.Normalised() && now + timeout.Micros() == end
        invariant now == ClockBefore(enterUs, answers, k)
        invariant forall j :: 0 <= j < k ==> !Decides(answers[j], end)
        invariant KeepsDeadline(calls, enterUs, answers, uart.mode)
        decreases |answers| - k
      {
        calls := calls + [SelectCall(now, timeout, uart.mode)];
        if k == |answers| {
          return Unfinished, calls;
        }
        var a := answers[k];
        k := k + 1;
        if a.rval > 0 {
          outcome := if a.writable then Done else Dead;
          return;
        } else if a.rval < 0 && a.errno != EINTR {
          return Dead, calls;
        }
        now := a.clockUs;
        if end > now {
          var remain := end - now;
          timeout := Timeval(remain / US_PER_S, remain % US_PER_S);
        } else {
          break;
        }
      }
      outcome := Failed;
    }

    /** `HdlcInterface::Write`; `records` holds the `select` calls of each of its waits. */
    method Write(aFrame: seq<uint8>, attempts: seq<Attempt>)
      returns (outcome: Outcome, records: seq<seq<SelectCall>>)
      requires |aFrame| < 0x1_0000
      modifies uart
      ensures outcome == Sending(|aFrame|, attempts).outcome
      ensures uart.Value() == Driven(old(uart.Value()), aFrame, attempts)
      ensures AllRecorded(records, WaitsReached(|aFrame|, attempts))
      ensures |records| == Sending(|aFrame|, attempts).waits
      ensures var sent := Sending(|aFrame|, attempts).sent;
              && sent <= |aFrame| && uart.radio == old(uart.radio) + aFrame[..sent]
              && (outcome == Done ==> uart.radio == old(uart.radio) + aFrame)
              && (outcome == Failed ==> sent < |aFrame|)
    {
      hide WaitOutcome, ExitClock, AllRecorded, SelectCount, KeepsDeadline, OnWire;
      WritesAPrefix(uart.Value(), aFrame, attempts);
      WaitsReachedAreCounted(|aFrame|, attempts);
      assert aFrame[..|aFrame|] == aFrame;
      var frame := aFrame;
      var rest := attempts;
      records := [];
      ghost var waits: seq<Attempt> := [];
      NothingRecorded(WaitsReached(|aFrame|, attempts));
      while |frame| > 0
        invariant Sending(|frame|, rest).outcome == Sending(|aFrame|, attempts).outcome
        invariant Driven(uart.Value(), frame, rest) == Driven(old(uart.Value()), aFrame, attempts)
        invariant AllRecorded(records, waits) && |records| == |waits|
        invariant waits + WaitsReached(|frame|, rest) == WaitsReached(|aFrame|, attempts)
        decreases |rest|
      {
        ghost var left := WaitsReached(|frame|, rest);
        assert waits + [] == waits;
        if rest == [] {
          return Unfinished, records;
        }
        var a := rest[0];
        rest := rest[1..];
        uart.SetTxLineEndings(Lf);
        uart.WriteRadio(frame, a.rval);
        uart.SetTxLineEndings(Crlf);
        if a.rval > 0 {
          if a.rval > |frame| {
            assert left == [];
            return Dead, records;
          }
          frame := frame[a.rval..];
          continue;
        }
        if a.rval < 0 && a.errno != EAGAIN && a.errno != EWOULDBLOCK && a.errno != EINTR {
          return Dead, records;
        }
        var waited, calls := WaitForWritable(a.enterUs, a.answers);
        RecordOneMore(records, waits, calls, a, if waited == Done then WaitsReached(|frame|, rest) else []);
        records, waits := records + [calls], waits + [a];
        if waited != Done {
          return waited, records;
        }
      }
      assert waits + [] == waits;
      outcome := Done;
    }
  }

  // ---------- Bounds ----------

  predicate Waits(a: Attempt) {
    a.rval <= 0 && !Fatal(a)
  }

  /** A UART reported writable then takes at least one byte. */
  predicate Progresses(attempts: seq<Attempt>) {
    forall k :: 0 <= k < |attempts| - 1 && Waits(attempts[k]) ==> attempts[k + 1].rval > 0
  }

  /** A frame of n bytes is sent with at most n waits. */
  lemma {:induction false} AtMostOneWaitPerByte(n: nat, attempts: seq<Attempt>)
    requires Progresses(attempts)
    ensures Sending(n, attempts).waits <= n
    ensures attempts != [] && attempts[0].rval > 0 && n > 0 ==> Sending(n, attempts).waits <= n - 1
    decreases attempts
  {
    if n > 0 && attempts != [] {
      var a := attempts[0];
      if 0 < a.rval <= n {
        AtMostOneWaitPerByte(n - a.rval, attempts[1..]);
      } else if Waits(a) {
        AtMostOneWaitPerByte(n, attempts[1..]);
      }
    }
  }

  predicate WaitsEnd(attempts: seq<Attempt>) {
    forall k :: 0 <= k < |attempts| && Waits(attempts[k]) ==>
      WaitOutcome(attempts[k].enterUs, attempts[k].answers) != Unfinished
  }

  lemma {:induction false} SendingEndsFrom(n: nat, attempts: seq<Attempt>)
    requires Progresses(attempts) && WaitsEnd(attempts)
    requires |attempts| >= 2 * n || (attempts != [] && attempts[0].rval > 0 && |attempts| >= 2 * n - 1)
    ensures Sending(n, attempts).outcome != Unfinished
    decreases attempts
  {
    if n > 0 && attempts != [] {
      var a := attempts[0];
      var rest := attempts[1..];
      assert forall k :: 0 <= k < |rest| ==> rest[k] == attempts[k + 1];
      if 0 < a.rval <= n {
        SendingEndsFrom(n - a.rval, rest);
      } else if Waits(a) && WaitOutcome(a.enterUs, a.answers) == Done {
        SendingEndsFrom(n, rest);
      }
    }
  }

  /** The call ends within 2n writes if each of its waits ends. */
  lemma SendingEnds(n: nat, attempts: seq<Attempt>)
    requires Progresses(attempts) && WaitsEnd(attempts) && |attempts| >= 2 * n
    ensures Sending(n, attempts).outcome != Unfinished
  {
    SendingEndsFrom(n, attempts);
  }

  predicate AllPunctual(attempts: seq<Attempt>) {
    forall k :: 0 <= k < |attempts| ==> Punctual(attempts[k].enterUs, attempts[k].answers)
  }

  lemma {:induction false} WaitingPerWait(n: nat, attempts: seq<Attempt>)
    requires AllPunctual(attempts)
    ensures 0 <= Sending(n, attempts).waitedUs <= Sending(n, attempts).waits * MAX_WAIT_US
    decreases attempts
  {
    if n > 0 && attempts != [] {
      var a := attempts[0];
      assert forall k :: 0 <= k < |attempts[1..]| ==> attempts[1..][k] == attempts[k + 1];
      if 0 < a.rval <= n {
        WaitingPerWait(n - a.rval, attempts[1..]);
      } else if Waits(a) {
        WaitDeadline(a.enterUs, a.answers);
        WaitingPerWait(n, attempts[1..]);
      }
    }
  }

  /** With a monotone clock and a punctual `select`, sending n bytes waits at most n times `kMaxWaitTime`. */
  lemma TotalWaiting(n: nat, attempts: seq<Attempt>)
    requires Progresses(attempts) && AllPunctual(attempts)
    ensures Sending(n, attempts).waitedUs <= n * MAX_WAIT_US
  {
    AtMostOneWaitPerByte(n, attempts);
    WaitingPerWait(n, attempts);
    var waits := Sending(n, attempts).waits;
    assert waits * MAX_WAIT_US <= n * MAX_WAIT_US;
  }

  /** A UART that becomes writable at the very deadline, for one byte at a time. */
  function Slow(n: nat, us: nat): seq<Attempt> {
    if n == 0 then []
    else
      [Attempt(0, EAGAIN, us, [SelectAnswer(1, true, EINTR, us + MAX_WAIT_US)]),
       Attempt(1, EAGAIN, us + MAX_WAIT_US, [])] + Slow(n - 1, us + MAX_WAIT_US)
  }

  /** The bound is reached: a successful send of n bytes can wait n times `kMaxWaitTime`, not just once. */
  lemma {:induction false} TotalWaitingIsReached(n: nat, us: nat)
    ensures var attempts := Slow(n, us);
            && Progresses(attempts)
            && AllPunctual(attempts)
            && Sending(n, attempts) == Result(Done, n, n, n * MAX_WAIT_US)
  {
    if n > 0 {
      var attempts, later := Slow(n, us), us + MAX_WAIT_US;
      var rest := Slow(n - 1, later);
      TotalWaitingIsReached(n - 1, later);
      assert attempts[1..][1..] == rest;
      assert forall k :: 2 <= k < |attempts| ==> attempts[k] == rest[k - 2];
      SlowByte(n, us, attempts);
    }
  }

  lemma SlowByte(n: nat, us: nat, attempts: seq<Attempt>)
    requires n > 0 && |attempts| >= 2
    requires attempts[0] == Attempt(0, EAGAIN, us, [SelectAnswer(1, true, EINTR, us + MAX_WAIT_US)])
    requires attempts[1].rval == 1
    requires Sending(n - 1, attempts[1..][1..]) == Result(Done, n - 1, n - 1, (n - 1) * MAX_WAIT_US)
    ensures Sending(n, attempts) == Result(Done, n, n, n * MAX_WAIT_US)
  {
    assert Consumed(attempts[0].answers, us + MAX_WAIT_US) == 1;
    assert Sending(n, attempts[1..]) == Result(Done, n, n - 1, (n - 1) * MAX_WAIT_US);
  }

  /**
    The comment on `Write` promises one `kMaxWaitTime`. With a punctual `select` and a UART
    that progresses, that is kept by every run exactly for frames of at most one byte.
   */
  lemma OneWaitTimeIffOneByte(n: nat)
    ensures (forall attempts :: Progresses(attempts) && AllPunctual(attempts) ==>
               Sending(n, attempts).waitedUs <= MAX_WAIT_US) <==> n <= 1
  {
    if n <= 1 {
      forall attempts | Progresses(attempts) && AllPunctual(attempts)
        ensures Sending(n, attempts).waitedUs <= MAX_WAIT_US
      {
        TotalWaiting(n, attempts);
      }
    } else {
      TotalWaitingIsReached(n, 0);
    }
  }

  // ---------- Line endings over whole runs ----------

  datatype UartOp = RadioFrame(frame: seq<uint8>, attempts: seq<Attempt>) | CliOutput(buf: seq<uint8>, rval: int)

  function AfterOp(w: Wires, op: UartOp): Wires {
    match op
    case RadioFrame(frame, attempts) => Driven(w, frame, attempts)
    case CliOutput(buf, rval) => WrittenToCli(w, buf, rval)
  }

  function AfterOps(w: Wires, ops: seq<UartOp>): Wires
    decreases ops
  {
    if ops == [] then w else AfterOps(AfterOp(w, ops[0]), ops[1..])
  }

  /** The radio bytes this operation sends, as the caller gave them. */
  function RadioPart(op: UartOp): seq<uint8> {
    match op
    case RadioFrame(frame, attempts) =>
      var n := Sending(|frame|, attempts).sent;
      if n <= |frame| then frame[..n] else frame
    case CliOutput(_, _) => []
  }

  /** The CLI bytes this operation gets accepted, as the caller gave them. */
  function CliPart(op: UartOp): seq<uint8> {
    match op
    case RadioFrame(_, _) => []
    case CliOutput(buf, rval) => buf[..Taken(rval, |buf|)]
  }

  function RadioSource(ops: seq<UartOp>): seq<uint8> {
    if ops == [] then [] else RadioPart(ops[0]) + RadioSource(ops[1..])
  }

  function CliSource(ops: seq<UartOp>): seq<uint8> {
    if ops == [] then [] else CliPart(ops[0]) + CliSource(ops[1..])
  }

  /** One operation appends to one wire and leaves the mode at CRLF. */
  lemma OpIsIsolated(w: Wires, op: UartOp)
    requires w.mode == Crlf
    ensures AfterOp(w, op) == Wires(Crlf, w.radio + RadioPart(op), w.cli + Expand(CliPart(op)))
  {
    match op
    case RadioFrame(frame, attempts) =>
      WritesAPrefix(w, frame, attempts);
      ModeAfterWrite(w, frame, attempts);
    case CliOutput(buf, rval) =>
      assert w.radio + [] == w.radio;
  }

  /**
    Over any sequence of radio and CLI output the radio bytes reach the wire verbatim, the
    accepted CLI bytes are expanded as one text, and the mode is back at CRLF, failed and
    unfinished sends included.
   */
  lemma {:induction false} LineEndingsAreIsolated(w: Wires, ops: seq<UartOp>)
    requires w.mode == Crlf
    ensures AfterOps(w, ops) == Wires(Crlf, w.radio + RadioSource(ops), w.cli + Expand(CliSource(ops)))
    decreases ops
  {
    if ops == [] {
      assert w.radio + [] == w.radio && w.cli + [] == w.cli;
    } else {
      var op, rest := ops[0], ops[1..];
      OpIsIsolated(w, op);
      LineEndingsAreIsolated(AfterOp(w, op), rest);
      ExpandConcat(CliPart(op), CliSource(rest));
      hide AfterOp, RadioPart, CliPart, Expand;
      Associates(w.radio, RadioPart(op), RadioSource(rest));
      Associates(w.cli, Expand(CliPart(op)), Expand(CliSource(rest)));
    }
  }

  lemma Associates(a: seq<uint8>, b: seq<uint8>, c: seq<uint8>)
    ensures (a + b) + c == a + (b + c)
  {
  }
}
