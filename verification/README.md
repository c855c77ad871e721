# Verification of the ESP32 platform layer

A Dafny model of the OpenThread platform layer for ESP32 and proofs about it.

- **The main loop and its wake-up protocol.** `MainloopSystem` is a transition system: the main task of the example
  application as a program counter machine, any number of other threads that take the API lock, change the alarm and
  call `otSysMainloopBreak`, the event file with its one-byte counter and single semaphore slot, the alarm and the
  clock. Steps are split at every lock operation and at every unlocked access to the slot. `SystemInvariant` gives an
  inductive invariant, `SystemTheorems` what follows for every reachable state, `HiddenWakeup` the exact limits,
  `LockProgress` deadlock freedom, `WakeProgress` that a break on its way arrives and is served, `Phases` that each
  uninterrupted phase, break and iteration can be run and has the effect of the class methods.
- **The millisecond alarm** (`AlarmMilli`), **the event file** (`EventFile`) and **the loop phases** (`Mainloop`): the
  C functions as classes and methods, proved against functions on values. The transition system runs the same
  functions, so both views share one definition.
- **The radio UART sender** (`Hdlc`) and **the shared line-ending mode** (`Uart`): the partial-write loop and the
  deadline loop, with every result of `write`, `select` and the clock chosen by the environment.
- **The two-page flash store** (`Flash`): one partition array refined to two independent NOR pages.

`dafny verify dfyconfig.toml` checks everything.

## Results that differ from what a reader may expect

- `otSysMainloopBreak` promises to break the main loop. The event counter is a `uint8_t`, so 256 unread writes look
  like none when `select()` registers. `HiddenWakeup.HiddenIffMultipleOf256` shows that a poll can sleep through n
  breaks finished between Update and registration, with k other writes unread, exactly when k + n is a multiple of 256;
  one break is enough if 255 writes were unread before it. Otherwise `SystemTheorems.BreakWakesPoll` holds.
- The same limit reaches the alarm. `HiddenWakeup.RearmHiddenIffMultipleOf256`: although every thread that re-armed the
  alarm has finished its break, a poll that registered with u unread writes can oversleep the alarm exactly when u is a
  nonzero multiple of 256. In all other cases `SystemTheorems.TimelyRearm` holds.
- The alarm compares a 64-bit T0 + Dt with a 32-bit clock. `AlarmMilli.CanFireIffDeadlineFits`: an alarm left alone can
  fire exactly when the sum stays below 2^32.
- A writer tests the semaphore slot and then copies it, both without the lock. `HiddenWakeup.TriggerMayBeEmpty` gives a
  run in which the copy is empty; `HiddenWakeup.CopiesSemaphoreIffSelecting` says when it is not.
- The comments on `SendFrame` and `Write` (src/spinel_hdlc.hpp:84-85, 158-159) speak of waiting up to `kMaxWaitTime`.
  That limit is per wait. `Hdlc.OneWaitTimeIffOneByte`: with a punctual `select` and a UART that takes a byte after each
  wait, every send keeps it exactly for frames of at most one byte. `Hdlc.TotalWaiting` bounds a whole send of n bytes by
  n times as much, and `Hdlc.TotalWaitingIsReached` attains that.
- `otPlatFlashGetSwapSize` reports two pages, but one swap index owns one. `Flash.AliasesInSwapRange`,
  `Flash.SpillsIffPastPageEnd` and `Flash.EraseBlanksIffInPage` say where the pages begin to overlap and how much of the
  reported range an erase covers.

## Assumptions about the environment

- A lock operation, one load or store of the semaphore slot, and a whole section under the event lock between two
  program counters are each one step. The two fields of the slot are read and written together.
- Only the main task selects on the event descriptor. A `select()` may use a fresh semaphore or a used one, with or
  without a token left over; it may end by its token, by its timeout (never early) or by another descriptor.
- One number stands for the descriptor of the event file inside its driver and in the process.
- Threads follow the documented lock discipline: the API lock is not taken twice by one thread.

## Model

| member | source | states |
|---|---|---|
| SystemTheorems.ReachableInv | example/main/cli.c:82-105 | the invariant of locks, counter, slot, tokens, clock and alarm holds in every reachable state of every interleaving |
| SystemTheorems.MutualExclusion | src/api_lock.c:42-51 | at most one task is in an API-locked section and at most one holds the event lock; if the API lock is held during the main task's poll, another thread holds it |
| SystemTheorems.DataIsGuarded | src/api_lock.c:42-51 | a step that changes the alarm is one of the API lock's holder, a step that changes the event file one of the event lock's holder; the slot is filled under the event lock and written by the main task only |
| SystemTheorems.TasksAreSequential | example/main/cli.c:82-105 | each task has one next step of its program, but for alarm changes where OpenThread code runs and the choices of an idle thread |
| SystemTheorems.NoLostWakeup | src/vfs_event.c:72-131 | a select() that registered with a nonzero counter, or was followed by a write, holds a token or a writer is still on its way to give it one; the slot names this select() and a later writer that has copied the slot holds its semaphore |
| WakeProgress.BreakInFlightWakes | src/vfs_event.c:125-131 | such a writer can give the sleeping select() its token within four steps of its own |
| SystemTheorems.BreakWakesPoll | src/system.c:89-120 | once a break that followed the latest Update has returned, the poll has its token, unless the unread writes at registration were a nonzero multiple of 256 and no later break has finished |
| SystemTheorems.PollEndsIff | src/system.c:103-107 | a sleeping poll can end by its semaphore exactly when it holds a token, and by its timeout exactly when the clock has gone the remaining time of the alarm that Update saw past the start of the sleep |
| WakeProgress.TokenIsServed | src/vfs_event.c:231-242 | from every reachable poll that holds its token, whoever holds the locks, a read in the same iteration that leaves nothing unread can be reached within 34 steps without time passing |
| WakeProgress.BreakIsServed | src/system.c:117-120 | the same after a finished break that followed the latest Update, with the one exception of BreakWakesPoll |
| WakeProgress.BreakInFlightIsServed | src/vfs_event.c:115-137 | the same, within 38 steps, for a break still in progress |
| SystemTheorems.ProcessHasRead | src/vfs_event.c:231-242 | a Process that was told of the event has read the event file in this iteration before CLI, radio and alarm run |
| HiddenWakeup.HiddenIffMultipleOf256 | src/vfs_event.c:78-125 | a poll asleep without a token, n finished breaks after its Update and k other writes unread at registration, with no break in progress, is reachable exactly when k + n is a multiple of 256 |
| SystemTheorems.TimelyRearm | src/alarm.c:63-107 | when every thread that changed the alarm has finished its break, a poll without a token sleeps no longer than to the present alarm's deadline, measured from the clock sample of Update, unless the unread writes at its registration were a nonzero multiple of 256 |
| HiddenWakeup.RearmHiddenIffMultipleOf256 | src/vfs_event.c:78-125 | with every re-arming thread's break finished, a poll that registered with u unread writes can oversleep the alarm exactly when u is a nonzero multiple of 256 |
| HiddenWakeup.RearmNeedsBreak | src/system.c:117-120 | without that break there is a reachable state that oversleeps the present alarm |
| SystemTheorems.FullSleepFires | src/alarm.c:109-134 | after a poll that slept its full timeout an unchanged alarm fires in the same iteration, within one clock epoch |
| HiddenWakeup.GoesOnIffSelecting | src/vfs_event.c:128-131 | the unlocked test of the slot lets the writer go on exactly when a select() is registered at that moment |
| HiddenWakeup.TriggerCountsIffCurrent | src/vfs_event.c:128-131 | a trigger gives the token exactly when it names the current select(), else the main task is unchanged |
| HiddenWakeup.CopiesSemaphoreIffSelecting | src/vfs_event.c:128-131 | the unlocked copy of the slot holds the current semaphore exactly when a select() is registered at that moment, and is empty otherwise |
| HiddenWakeup.TriggerMayBeEmpty | src/vfs_event.c:88-131 | the slot can be cleared between a writer's test and its copy |
| LockProgress.LocksAreGranted | example/main/cli.c:82-97 | from every reachable state a task waiting for the API lock or the event lock can be granted it within 14 steps without time passing |
| Phases.UpdatePhase | example/main/cli.c:88-91 | the API-locked section of tasklets and Update can run whenever the lock is free; it obeys the tasklets' commands, then fills the context |
| Phases.SelectPhase | src/vfs_event.c:60-86 | registration can run whenever the event lock is free; the poll then sleeps with its semaphore in the slot, holding a token exactly if it had one or the counter is nonzero |
| Phases.WakePhase | src/vfs_event.c:88-92 | every enabled wake-up leads to Process with the slot empty and the reported descriptors |
| Phases.FailedSelectIsFinal | example/main/cli.c:93-103 | after a failed select() the main task takes no further step |
| Phases.ProcessPhase | src/system.c:109-115 | Process can run whenever its locks are free, with the effect on event file and alarm that Mainloop.Process is proved to have |
| Phases.BreakPhase | src/vfs_event.c:115-137 | a break can run whenever the event lock is free; it adds one modulo 256 and leaves a token with a registered select() |
| Phases.ApiPhase | src/api_lock.c:42-51 | a thread can run any alarm commands in an API-locked section whenever the lock is free, and changes nothing else |
| Phases.UnreadIsServedAtOnce | example/main/cli.c:82-105 | if the unread writes are no multiple of 256, one iteration can run without time passing; it reads them all, obeys every command and processes the alarm |
| Phases.FullSleepRuns | src/alarm.c:81-134 | a poll whose clock has reached the end of its timeout can end by it, and its unchanged alarm then fires before the next Update, within one clock epoch |
| SystemInvariant.AlwaysRegisters | src/vfs_event.c:74 | the context left by Update always satisfies the guard of the event file's select |
| AlarmMilli.ClockMeaning | src/alarm.c:81-84 | the 64-bit microsecond timer is epochs of 2^32 milliseconds, the 32-bit milliseconds, and less than a millisecond that is dropped |
| AlarmMilli.TimeoutMeaning | src/alarm.c:86-107 | the timeout is normalised, fits 32 signed bits, equals the remaining milliseconds and is zero exactly when the alarm is due |
| AlarmMilli.FullSleepReachesDeadline | src/alarm.c:81-134 | sleeping the timeout makes the alarm due although both clock readings are floored |
| AlarmMilli.FiresAtFirstDueReading | src/alarm.c:109-134 | an alarm left alone fires at the first Process whose clock has reached T0 + Dt, and never before |
| AlarmMilli.CanFireIffDeadlineFits | src/alarm.c:63-134 | some sequence of clock readings fires the alarm exactly when T0 + Dt is below 2^32; otherwise every Update asks for a positive sleep |
| AlarmMilli.StartsAreConserved | src/alarm.c:63-134 | over every run with re-entrant callbacks, starts equal fires plus replaced starts plus effective stops plus the one running |
| AlarmMilli.RearmInCallbackIsKept | src/alarm.c:115-128 | a start made inside the fired callback is the alarm afterwards |
| AlarmMilli.LastCommandDecides | src/alarm.c:63-79 | after any starts and stops the alarm is due exactly if the last one is a start that is due |
| AlarmMilli.Alarm.StartAt | src/alarm.c:63-72 | T0, Dt and the running flag after a start |
| AlarmMilli.Alarm.Stop | src/alarm.c:74-79 | only the running flag changes |
| AlarmMilli.Alarm.Update | src/alarm.c:86-107 | the timeout written into the context |
| AlarmMilli.Alarm.Process | src/alarm.c:109-134 | fires exactly when running and due, disarming before the callback runs |
| EventFile.EventsAreConserved | src/vfs_event.c:94-174 | accepted writes equal those returned by reads, dropped at close, still counted, plus 256 per wrap |
| EventFile.NoWrapIffWindowsFit | src/vfs_event.c:125-169 | nothing is swallowed exactly when no window between resets holds more than 255 writes |
| EventFile.HistoryDetermines | src/vfs_event.c:94-174 | over every history the file is open exactly if opened last, and the counter is the number of writes since the last read or close, modulo 256 |
| EventFile.OpensIffClosed | src/vfs_event.c:94-113 | over every history an open succeeds exactly for "/ot" while the file is not open, and gives descriptor 8 |
| EventFile.SelectsIffOpenAndWatched | src/vfs_event.c:74 | over every history a select() takes the slot exactly if the file is open, nfds is positive and descriptor 8 is watched |
| EventFile.AcceptedIffLastOpened | src/vfs_event.c:94-173 | a descriptor is accepted exactly when it is the reserved one and the file was opened after its last close |
| EventFile.EventDevice.StartSelect | src/vfs_event.c:60-86 | takes the semaphore when the guard holds and signals it at once, under the lock, if the counter is nonzero |
| EventFile.EventDevice.EndSelect | src/vfs_event.c:88-92 | clears the slot |
| EventFile.EventDevice.Open | src/vfs_event.c:94-113 | opens once, for the event path only, and leaves the lock as found |
| EventFile.EventDevice.Write | src/vfs_event.c:115-137 | counts modulo 256 and triggers a registered semaphore after releasing the lock; a refused write also leaves the lock as found |
| EventFile.EventDevice.Read | src/vfs_event.c:139-156 | returns the counter and resets it |
| EventFile.EventDevice.Close | src/vfs_event.c:158-174 | closes and drops the counter |
| Mainloop.PollCoverage | src/system.c:78-101 | from a fresh context Update watches exactly the three descriptors with their maximum and a normalised 32-bit timeout that is zero exactly when tasklets are pending or the alarm is due |
| Mainloop.CommandsCountAtOnce | src/system.c:109-115 | the last alarm command of the CLI input, if any was read, and the radio callbacks decides whether the alarm fires in the same Process; without commands it fires exactly if it was due |
| Mainloop.Update | src/system.c:89-101 | the context after the four registrations and the tasklet check |
| Mainloop.Process | src/system.c:109-115 | event, CLI, radio and alarm phases in order, with their joint effect on event file and alarm |
| Hdlc.HdlcInterface.WaitForWritable | src/spinel_hdlc.cpp:147-205 | every timeout is normalised and reaches from the last clock sample to the same deadline; the first deciding answer gives the outcome |
| Hdlc.WaitMeaning | src/spinel_hdlc.cpp:157-201 | a wait is done, fatal or failed exactly when the first answer that matters is a writable port, an unwritable port or an error other than EINTR, or no result with two seconds past; how many selects it made |
| Hdlc.WaitDeadline | src/spinel_hdlc.cpp:186-201 | a wait fails only at or after its deadline, and exactly kMaxWaitTime after entry if select is punctual |
| Hdlc.WaitEnds | src/spinel_hdlc.cpp:157-199 | with a strictly advancing clock a wait ends within as many selects as the deadline has microseconds |
| Hdlc.HdlcInterface.Write | src/spinel_hdlc.cpp:207-240 | the wire gets a prefix of the frame, all of it on success and less on failure; there is one record for every wait, with all its selects, each in CRLF mode and with a timeout reaching to that wait's deadline |
| Hdlc.SendingMeaning | src/spinel_hdlc.cpp:211-236 | a send is done exactly when a write takes all that is left, failed exactly when the last wait reached is, fatal exactly when that wait is, or a write takes too much or fails with an error other than EAGAIN, EWOULDBLOCK and EINTR; one wait per retried write |
| Hdlc.WritesAPrefix | src/spinel_hdlc.cpp:211-236 | for every script of results the emitted bytes are an in-order prefix without loss or repetition; full on success, strict on failure or while unfinished |
| Hdlc.AtMostOneWaitPerByte | src/spinel_hdlc.cpp:211-236 | if a writable UART takes at least one byte, a frame of n bytes needs at most n waits |
| Hdlc.SendingEnds | src/spinel_hdlc.cpp:211-236 | under the same condition the call ends within 2n writes if its waits end |
| Hdlc.TotalWaiting | src/spinel_hdlc.hpp:137 | with a monotone clock and a punctual select the waiting adds up to at most n times kMaxWaitTime |
| Hdlc.TotalWaitingIsReached | src/spinel_hdlc.cpp:211-236 | that bound is attained by a successful send, for every n |
| Hdlc.OneWaitTimeIffOneByte | src/spinel_hdlc.hpp:155-168 | every punctual, progressing send of n bytes stays within one kMaxWaitTime exactly when n is at most one |
| Hdlc.LineEndingsAreIsolated | src/uart.c:62-99 | over any sequence of radio and CLI output radio bytes are verbatim, accepted CLI bytes are LF-to-CRLF expanded, and the mode is CRLF afterwards |
| Uart.VerbatimIffNoLf | src/spinel_hdlc.cpp:215-220 | in CRLF mode a frame would be unchanged exactly when it has no LF, which is why the mode is switched |
| Uart.ContractExpand | src/uart.c:98-99 | the expansion can be undone |
| Uart.EveryLfFollowsCr | src/uart.c:98-99 | every LF on the wire in CRLF mode follows a CR |
| Uart.UartDriver.Send | src/uart.c:62-74 | one write; success exactly when all bytes were accepted, and then all are on the wire |
| Flash.StoreRefinesPages | src/flash.c:117-165 | any in-page history answers like two independent NOR pages and leaves the rest of the partition alone |
| Flash.StepRefines | src/flash.c:117-165 | one in-page operation changes its own page only |
| Flash.ByteIsExpected | src/flash.c:117-165 | each byte is all ones ANDed with everything written to it since the last erase of its page |
| Flash.BitsAreAnded | src/flash.c:117-165 | once its page has been erased, a bit of the partition is set exactly when every write to its byte since the last erase has it set |
| Flash.DisjointWritesReadBack | src/flash.c:117-165 | after an erase of the page, writes to disjoint in-page ranges all read back exactly |
| Flash.AddressMeaning | src/flash.c:128-159 | swap index 0 maps an offset to itself, any other adds 4096 modulo 2^32; below one page they share no address |
| Flash.AcceptedIffItFits | src/flash.c:131-164 | an operation is accepted exactly when its last byte is in the partition, where an erase takes 4096 bytes from 0 or 4096 |
| Flash.AddressIsInjectiveInPage | src/flash.c:128-159 | below one page size the address determines page and offset |
| Flash.AliasesInSwapRange | src/flash.c:110-159 | in the reported range two places share an address exactly when one is offset PAGE_SIZE + k of page 0 and the other offset k of page 1 |
| Flash.SpillsIffPastPageEnd | src/flash.c:151-161 | a write starting in page 0 can change page 1 exactly when it passes the page end |
| Flash.ErasedRange | src/flash.c:117-133 | an erase sets bytes 0 to 4095 for swap index 0, else bytes 4096 to 8191, to 0xFF, and changes no other |
| Flash.EraseBlanksIffInPage | src/flash.c:110-133 | an erase blanks an offset of the range reported for its swap index, whatever was stored, exactly when the offset is below one page size |
| Flash.EraseDestroysAlias | src/flash.c:117-159 | erasing page 1 destroys offset PAGE_SIZE + k of page 0 |
| Flash.Store.Erase | src/flash.c:117-133 | one page blanked, the rest unchanged, or nothing if the partition refuses |
| Flash.Store.Write | src/flash.c:151-165 | bits cleared at the computed address only, or nothing if refused |
| Flash.Store.Read | src/flash.c:135-149 | the bytes at the computed address |

## Left out

- Hdlc.HdlcInterface.Write: its termination under an arbitrary environment, which the code does not have; scripts are finite and a call may end unfinished.
- Hdlc.HdlcInterface.WaitForWritable: a clock set back during a wait makes the timeout grow; it is covered by the deadline invariant but no bound on the wait follows.
- MainloopSystem.DoTrigger: a trigger of an empty or stale semaphore has no effect in the model; what FreeRTOS does with it is not modelled.
- Flash.Store.Write: partition bounds are checked without 32-bit overflow of address plus size, which happens inside ESP-IDF.
- `otSysMainloopBreak` called by the main task itself from a callback; to the rest of the system it looks like a thread that breaks at that moment.
- Pseudo reset (`goto pseudo_reset`), `otSysInit` and `otSysDeinit`: the transition system runs inside one pass of the outer loop.
- A write by another thread to the CLI port while a radio `write` call is in progress: it would use the radio's line-ending mode.
- The HDLC encoder and decoder, frame buffers and the spinel driver, which are not in the repository; a frame is any byte sequence.
- `src/radio.cpp`, `src/misc.c`, `src/memory.c`, `src/logging.c` and the dummy settings functions: forwards and constants.
- `HdlcInterface::TryReadAndDecode`, `WaitForFrame` and the CLI read: only their effect on the alarm is modelled. In `platformCliUartProcess` the second branch repeats the test of the first, so read errors are ignored there.
- Fatal paths (`abort`, `VerifyOrDie`, a failed `select`): terminal, with no claims after them.
