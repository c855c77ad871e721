/**
  The event file of src/vfs_event.c: a counter of one byte behind a lock, and one slot for
  the semaphore of a pending `select()`.

  `Event` is the value of the static `sEvent` without its lock; the functions on it are the
  locked sections of the entry points. The class at the end runs them in sequence; module
  MainloopSystem interleaves them.
 */
module EventFile {
  import opened Platform

  const SHORT_PATH: string := "/ot"

  datatype Event = Event(fd: int, isOpen: bool, counter: uint8)

  const INITIAL_EVENT: Event := Event(-1, false, 0)

  predicate Accepts(e: Event, fd: int) {
    fd == e.fd && e.isOpen
  }

  predicate Opens(e: Event, path: string) {
    path == SHORT_PATH && !e.isOpen
  }

  function Opened(e: Event, path: string): Event {
    if Opens(e, path) then e.(fd := RESERVED_FD_MIN, isOpen := true) else e
  }

  /** The counter is a `uint8_t`: it wraps. */
  function Written(e: Event, fd: int): Event {
    if Accepts(e, fd) then e.(counter := (e.counter + 1) % UINT8_RANGE) else e
  }

  function Consumed(e: Event, fd: int): Event {
    if Accepts(e, fd) then e.(counter := 0) else e
  }

  function Closed(e: Event, fd: int): Event {
    if Accepts(e, fd) then e.(isOpen := false, counter := 0) else e
  }

  /** Whether `event_start_select` takes the semaphore. */
  predicate Selects(e: Event, nfds: int, readFds: set<int>) {
    e.isOpen && nfds > 0 && e.fd in readFds
  }

  // ---------- Conservation of events ----------

  datatype Op =
    | Open(path: string)
    | Write(fd: int)
    | Read(fd: int)
    | Close(fd: int)

  /** Where the accepted writes went. `unread` is their exact number since the last reset. */
  datatype Account = Account(event: Event, accepted: nat, returned: nat, dropped: nat, wraps: nat, unread: nat) {

    predicate Balanced() {
      && accepted == returned + dropped + event.counter + 256 * wraps
      && event.counter == unread % 256
    }
  }

  const OPENING_ACCOUNT: Account := Account(INITIAL_EVENT, 0, 0, 0, 0, 0)

  function Book(a: Account, op: Op): Account {
    match op
    case Open(path) =>
      a.(event := Opened(a.event, path))
    case Write(fd) =>
      if Accepts(a.event, fd) then
        Account(Written(a.event, fd), a.accepted + 1, a.returned, a.dropped,
                a.wraps + if a.event.counter == UINT8_RANGE - 1 then 1 else 0, a.unread + 1)
      else a
    case Read(fd) =>
      if Accepts(a.event, fd) then
        a.(event := Consumed(a.event, fd), returned := a.returned + a.event.counter, unread := 0)
      else a
    case Close(fd) =>
      if Accepts(a.event, fd) then
        a.(event := Closed(a.event, fd), dropped := a.dropped + a.event.counter, unread := 0)
      else a
  }

  function BookAll(a: Account, ops: seq<Op>): Account {
    if ops == [] then a else Book(BookAll(a, ops[..|ops| - 1]), ops[|ops| - 1])
  }

  lemma CounterFollows(n: nat)
    ensures (n % 256 + 1) % UINT8_RANGE == (n + 1) % 256
  {
  }

  lemma StepBalances(a: Account, op: Op)
    requires a.Balanced()
    ensures Book(a, op).Balanced()
  {
    CounterFollows(a.unread);
  }

  /**
    Over every history: accepted writes are those returned by reads, dropped by closes,
    still in the counter, or swallowed 256 at a time by its wrap-around.
   */
  lemma {:induction false} EventsAreConserved(a: Account, ops: seq<Op>)
    requires a.Balanced()
    ensures BookAll(a, ops).Balanced()
  {
    if ops != [] {
      EventsAreConserved(a, ops[..|ops| - 1]);
      StepBalances(BookAll(a, ops[..|ops| - 1]), ops[|ops| - 1]);
    }
  }

  /** No window between resets holds more than 255 accepted writes. */
  predicate WindowsFit(ops: seq<Op>) {
    forall n :: 0 <= n <= |ops| ==> BookAll(OPENING_ACCOUNT, ops[..n]).unread <= 255
  }

  /** Nothing is ever swallowed exactly when every window between resets fits one byte. */
  lemma {:induction false} NoWrapIffWindowsFit(ops: seq<Op>)
    ensures BookAll(OPENING_ACCOUNT, ops).wraps == 0 <==> WindowsFit(ops)
    ensures WindowsFit(ops) ==>
              var a := BookAll(OPENING_ACCOUNT, ops); a.accepted == a.returned + a.dropped + a.unread
  {
    hide BookAll, Book, WindowsFit;
    if ops == [] {
      NothingBooked();
    } else {
      var front := ops[..|ops| - 1];
      NoWrapIffWindowsFit(front);
      EventsAreConserved(OPENING_ACCOUNT, front);
      OneMore(ops);
      LastWindow(ops);
      var a := BookAll(OPENING_ACCOUNT, front);
      assert a.wraps == 0 ==> a.accepted == a.returned + a.dropped + a.unread;
      StepWraps(a, ops[|ops| - 1]);
    }
  }

  lemma NothingBooked()
    ensures BookAll(OPENING_ACCOUNT, []) == OPENING_ACCOUNT && WindowsFit([])
  {
    var none: seq<Op> := [];
    assert none[..0] == none;
  }

  lemma OneMore(ops: seq<Op>)
    requires ops != []
    ensures BookAll(OPENING_ACCOUNT, ops) == Book(BookAll(OPENING_ACCOUNT, ops[..|ops| - 1]), ops[|ops| - 1])
  {
  }

  /** While nothing has been swallowed, an operation swallows something exactly if it overfills the window. */
  lemma StepWraps(a: Account, op: Op)
    requires a.Balanced() && (a.wraps == 0 ==> a.accepted == a.returned + a.dropped + a.unread)
    ensures var b := Book(a, op);
            && (b.wraps == 0 <==> a.wraps == 0 && b.unread <= 255)
            && (b.wraps == 0 ==> b.accepted == b.returned + b.dropped + b.unread)
  {
  }

  lemma LastWindow(ops: seq<Op>)
    requires ops != []
    ensures WindowsFit(ops) <==> WindowsFit(ops[..|ops| - 1]) && BookAll(OPENING_ACCOUNT, ops).unread <= 255
  {
    hide BookAll;
    var front := ops[..|ops| - 1];
    assert ops[..|ops|] == ops;
    forall n | 0 <= n < |ops|
      ensures BookAll(OPENING_ACCOUNT, ops[..n]) == BookAll(OPENING_ACCOUNT, front[..n])
    {
      assert ops[..n] == front[..n];
    }
  }

  // ---------- What a history determines ----------

  /** The last open of the event path or close of its descriptor, if any: true for an open. */
  function LastToggle(ops: seq<Op>): Option<bool> {
    if ops == [] then None
    else
      match ops[|ops| - 1]
      case Open(path) => if path == "/ot" then Some(true) else LastToggle(ops[..|ops| - 1])
      case Close(fd) => if fd == 8 then Some(false) else LastToggle(ops[..|ops| - 1])
      case _ => LastToggle(ops[..|ops| - 1])
  }

  /** The file is open after these operations. */
  predicate IsOpenAfter(ops: seq<Op>) {
    LastToggle(ops) == Some(true)
  }

  /** How many writes reached the open file since it was last read or closed while open. */
  function WritesSinceReset(ops: seq<Op>): nat {
    if ops == [] then 0
    else
      var front := ops[..|ops| - 1];
      match ops[|ops| - 1]
      case Open(_) => WritesSinceReset(front)
      case Write(fd) => WritesSinceReset(front) + if fd == 8 && IsOpenAfter(front) then 1 else 0
      case Read(fd) => if fd == 8 && IsOpenAfter(front) then 0 else WritesSinceReset(front)
      case Close(fd) => if fd == 8 && IsOpenAfter(front) then 0 else WritesSinceReset(front)
  }

  lemma StepDetermines(a: Account, op: Op)
    requires a.event.isOpen ==> a.event.fd == 8
    ensures var e, e', n := a.event, Book(a, op).event, a.event.counter;
            && (e'.isOpen ==> e'.fd == 8)
            && (op.Open? ==> e'.counter == n && e'.isOpen == (e.isOpen || op.path == "/ot"))
            && (op.Write? ==>
                  e'.isOpen == e.isOpen && e'.counter == if op.fd == 8 && e.isOpen then (n + 1) % 256 else n)
            && (op.Read? ==>
                  e'.isOpen == e.isOpen && e'.counter == if op.fd == 8 && e.isOpen then 0 else n)
            && (op.Close? ==>
                  e'.isOpen == (e.isOpen && op.fd != 8) && e'.counter == if op.fd == 8 && e.isOpen then 0 else n)
  {
  }

  /** Over every history the static variables are those the operations themselves determine. */
  lemma {:induction false} HistoryDetermines(ops: seq<Op>)
    ensures var e := BookAll(OPENING_ACCOUNT, ops).event;
            && (e.isOpen <==> IsOpenAfter(ops))
            && (e.isOpen ==> e.fd == 8)
            && e.counter == WritesSinceReset(ops) % 256
  {
    if ops != [] {
      var front := ops[..|ops| - 1];
      HistoryDetermines(front);
      OneMore(ops);
      hide BookAll, Book;
      StepDetermines(BookAll(OPENING_ACCOUNT, front), ops[|ops| - 1]);
    }
  }

  /** Over every history a descriptor is accepted exactly when it is the reserved one and the file was opened last. */
  lemma AcceptedIffLastOpened(ops: seq<Op>, fd: int)
    ensures Accepts(BookAll(OPENING_ACCOUNT, ops).event, fd) <==> fd == 8 && IsOpenAfter(ops)
  {
    HistoryDetermines(ops);
  }

  /** An open succeeds exactly for the event path while the file is not open, and then gives the reserved descriptor. */
  lemma OpensIffClosed(ops: seq<Op>, path: string)
    ensures var e := BookAll(OPENING_ACCOUNT, ops).event;
            && (Opens(e, path) <==> path == "/ot" && !IsOpenAfter(ops))
            && (Opens(e, path) ==> Opened(e, path).fd == 8)
  {
    HistoryDetermines(ops);
  }

  /** A select() takes the slot exactly when the file is open and the event descriptor is watched for reading. */
  lemma SelectsIffOpenAndWatched(ops: seq<Op>, nfds: int, readFds: set<int>)
    ensures Selects(BookAll(OPENING_ACCOUNT, ops).event, nfds, readFds) <==>
              IsOpenAfter(ops) && nfds > 0 && 8 in readFds
  {
    HistoryDetermines(ops);
  }

  // ---------- The static variables ----------

  type Semaphore = nat

  class EventDevice {
    var fd: int
    var isOpen: bool
    var counter: uint8
    var lockDepth: nat
    var signal: Option<Semaphore>
    /** Every semaphore passed to `esp_vfs_select_triggered`, with the lock depth at that moment. */
    var triggers: seq<(Semaphore, nat)>

    function Value(): Event
      reads this
    {
      Event(fd, isOpen, counter)
    }

    constructor ()
      ensures Value() == INITIAL_EVENT
      ensures lockDepth == 0 && signal == None && triggers == []
    {
      fd, isOpen, counter := -1, false, 0;
      lockDepth, signal, triggers := 0, None, [];
    }

    method Acquire()
      modifies this`lockDepth
      ensures lockDepth == old(lockDepth) + 1
    {
      lockDepth := lockDepth + 1;
    }

    method Release()
      requires lockDepth > 0
      modifies this`lockDepth
      ensures lockDepth == old(lockDepth) - 1
    {
      lockDepth := lockDepth - 1;
    }

    /** The semaphore is signalled under the lock, so the counter read and the signal are one step. */
    method StartSelect(nfds: int, readFds: set<int>, semaphore: Semaphore)
      modifies this
      ensures Value() == old(Value()) && lockDepth == old(lockDepth)
      ensures signal == if Selects(Value(), nfds, readFds) then Some(semaphore) else old(signal)
      ensures triggers == if Selects(Value(), nfds, readFds) && counter > 0
                          then old(triggers) + [(semaphore, lockDepth + 1)] else old(triggers)
    {
      Acquire();
      if isOpen && nfds > 0 && fd in readFds {
        signal := Some(semaphore);
        if counter > 0 {
          triggers := triggers + [(semaphore, lockDepth)];
        }
      }
      Release();
    }

    /** The slot is cleared without the lock. */
    method EndSelect()
      modifies this`signal
      ensures signal == None
    {
      signal := None;
    }

    method Open(path: string) returns (r: int)
      modifies this
      ensures Value() == Opened(old(Value()), path) && lockDepth == old(lockDepth)
      ensures signal == old(signal) && triggers == old(triggers)
      ensures r == if Opens(old(Value()), path) then 8 else -1
    {
      r := -1;
      Acquire();
      if path == SHORT_PATH && !isOpen {
        fd := RESERVED_FD_MIN;
        isOpen := true;
        r := fd;
      }
      Release();
    }

    /** The trigger comes after the lock is released; both exits leave the lock as it was found. */
    method Write(aFd: int, size: nat) returns (r: int)
      modifies this
      ensures Value() == Written(old(Value()), aFd) && lockDepth == old(lockDepth)
      ensures signal == old(signal)
      ensures triggers == if Accepts(old(Value()), aFd) && signal.Some?
                          then old(triggers) + [(signal.value, lockDepth)] else old(triggers)
      ensures r == if Accepts(old(Value()), aFd) then size else -1
    {
      r := -1;
      Acquire();
      if !(aFd == fd && isOpen) {
        Release();
        return;
      }
      counter := (counter + 1) % UINT8_RANGE;
      Release();
      if signal.Some? {
        triggers := triggers + [(signal.value, lockDepth)];
      }
      r := size;
    }

    method Read(aFd: int) returns (r: int)
      modifies this
      ensures Value() == Consumed(old(Value()), aFd) && lockDepth == old(lockDepth)
      ensures signal == old(signal) && triggers == old(triggers)
      ensures r == if Accepts(old(Value()), aFd) then old(counter) else -1
    {
      r := -1;
      Acquire();
      if aFd == fd && isOpen {
        r := counter;
        counter := 0;
      }
      Release();
    }

    method Close(aFd: int) returns (r: int)
      modifies this
      ensures Value() == Closed(old(Value()), aFd) && lockDepth == old(lockDepth)
      ensures signal == old(signal) && triggers == old(triggers)
      ensures r == if Accepts(old(Value()), aFd) then 0 else -1
    {
      r := -1;
      Acquire();
      if aFd == fd && isOpen {
        isOpen := false;
        counter := 0;
        r := 0;
      }
      Release();
    }
  }
}
