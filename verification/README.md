# Verified models of asynManager and StreamDevice

This project models the parts of a control-system I/O stack that are hardest to
get right, and proves properties of them that hold for every input, every run
and every interleaving:

- **asynManager's port scheduler** (`PortScheduler`, `PortInvariants`,
  `PortRuns`, `PortCalls`, `PortManager`, `QueueLock`, `InterruptList`): four priority
  queues per port, a port thread, timeouts, cancellation, blocking of ports and
  devices, the `queueLockPort` handshake, and the list of interrupt users. The
  scheduler is a step system; one step is the code between two points where the
  port's lock is released. `PortManager.PortPvt` and
  `InterruptList.InterruptBase` are the same critical sections as methods that
  edit the lists and flags in place, each proved to perform its step.
- **StreamDevice's protocol interpreter** (`StreamTrace`, `StreamState`,
  `StreamMachine`, `StreamRuns`, `StreamInput`, `StreamProgress`, `StreamRecursion`, `StreamCore`, `LineInput`):
  a callback-driven machine over flags, with error handlers, bus ownership and
  assembly of input lines from chunks. The bus is abstract: it may refuse a
  request, answer before the request returns, or answer later. `StreamMachine`
  gives the effect of every function on the state, `StreamCore.StreamCore` the
  same functions as methods that change flags, code and buffer in place. What a
  run does to the bus and to its input, and what it reports to its record, goes
  into a trace.
- **The checksum converter** (`Adler32`, `PolynomialDivision`, `CrcTables`,
  `BitWords`, `Crc`, `ChecksumPseudo`): Adler-32 with deferred reduction, three table-driven
  CRCs as polynomial long division, and the printed and scanned checksum field.
- **StreamBuffer and the value converters** (`StreamBuffer`, `EnumConverter`,
  `BinaryConverter`, `RawConverter`). `Basics` holds what several modules share.

`dafny verify dfyconfig.toml` checks everything.

## What the proofs say about the code

Places where the code does less than its comments or a reader might expect, with
the exact condition:

- A second `interruptStart` before `interruptEnd` clears `listModified`. After any
  calls the next end wakes every waiter if and only if nobody was queued at that
  start or somebody queued up since (`NestedStartForgets`, both outcomes in
  `NestedStartBothWays`).
- In asynchronous mode `evalIn` and `readCallback` can call each other for ever:
  they never return if and only if unparsed input is left and the last status is a
  missing reply (`NeverReturnsIff`). A missing reply in a synchronous run leaves
  that state behind, and the next asynchronous start ends in it
  (`StaleStatusDiverges`). In synchronous mode every call ends.
- An abort makes the core deaf only outside error handlers and @init. After it no
  answer of the bus or the timer has any effect if and only if the run was in
  neither, or nothing was awaited (`AbortSilences`); otherwise a timer can make a
  finished run report again (`AbortedHandlerResumes`). Sticky errors hold even then.
- Starting a protocol clears the flag of the bus owner. In any order of calls and
  answers, late ones included, the core knows whether it owns the bus if and only if
  no protocol was started while it was owner (`OwnershipIsKnown`). An aborted init
  run that gets its lock after all leaves it as owner; the start that follows then
  locks a second time (`StartAsOwnerMisusesBus`).
- Early input is buffered, but an accepted event has no effect at all if and only if
  a lock, a write or a timer is still awaited (`EarlyEventIsLost`); an `out` followed by an
  `event` gets there (`EarlyEventOccurs`).
- `StreamBuffer::replace` with a range that ends before the start of the buffer
  removes the whole contents, because a negative length is compared as unsigned.
  It does the intended edit if and only if the range does not end there or the
  buffer is empty (`ReplacedIsEdit`).
- Big-endian hexadecimal checksums ignore a failed `sscanf`. A text is accepted for
  no other checksum than the one it spells if and only if each of its bytes reads as
  a hexadecimal number (`BigEndianHexExact`); `??31` is accepted for 0x3131.
- A decimal checksum is accepted if and only if the leading digits of the text spell it
  modulo 2^32, whatever comes behind them (`DecimalExact`); `1xx` is accepted for 1
  (`DecimalAcceptsOther`).
- A `%b` text is read back completely if and only if the width is 0 or not less than
  the number of bits printed (`BinaryConverter.TextScans`).
- `%r` little endian with a width above nine consumes one byte too few
  (`RawConverter.ScanLittle`).
- An enum text is read back, whatever follows it, if and only if no earlier choice
  can match there (`PrintScan`).
- The lines do not depend on how the input was cut if and only if a terminator and
  maxInput are not both set (`IndependentIff`). With both, for every terminator and every
  limit, a terminator right behind the longest line ends that line or is an empty line
  of its own (`LimitAndTerminatorDiffer`).

## Model

| member | source | states |
|---|---|---|
| `PortRuns.NoLostWakeup` | asyn/asyn/asynDriver/asynManager.c:790-941 | in every reachable state in which the port thread waits, its event is empty and nobody is between a state change and its signal, an enabled port has an empty connect queue and no eligible request |
| `PortRuns.QueueIntegrity` | asyn/asyn/asynDriver/asynManager.c:657-677 | in every reachable state a user is marked queued exactly when one queue holds it, once; the search for a queued user never reaches LOGIC ERROR |
| `PortRuns.Conservation` | asyn/asyn/asynDriver/asynManager.c:1610-1648 | every accepted request is either queued or has exactly one fate (dispatched, timed out, cancelled), and a fate never changes in the rest of the run |
| `PortRuns.PortBlockExcludes` | asyn/asyn/asynDriver/asynManager.c:924-927 | from the end of a callback whose user has a port block until that count is 0 again, every High/Medium/Low callback of the run is that user's |
| `PortRuns.DeviceBlockExcludes` | asyn/asyn/asynDriver/asynManager.c:882-890 | the same for a device block and the callbacks on that device |
| `PortRuns.HoldersHaveBlocks` | asyn/asyn/asynDriver/asynManager.c:1690-1739 | in every reachable state a recorded port or device holder has a positive block count |
| `PortRuns.DispatchesFirstEligible` | asyn/asyn/asynDriver/asynManager.c:864-893 | the scan dispatches the first eligible entry of the highest non-connect priority that has one and removes just that entry; otherwise nothing is eligible and the queues are unchanged |
| `PortRuns.AcceptanceOrder` | asyn/asyn/asynDriver/asynManager.c:1562-1579 | over any run, requests of equal priority on one device are dispatched in acceptance order, except one whose user had a block when it was accepted or dispatched |
| `PortRuns.ReachableIsFine` | asyn/asyn/asynDriver/asynManager.c:790-941 | every reachable state satisfies the whole invariant: queues, ledger of requests, holders, wakeups |
| `PortInvariants.StepKeeps` | asyn/asyn/asynDriver/asynManager.c:1479-1739 | every step of every thread keeps the invariant |
| `PortRuns.SignalArrives` | asyn/asyn/asynDriver/asynManager.c:633-640 | while a signal is under way, steps of its callers alone bring it to the event and wake the port thread |
| `PortCalls.CountsAddUp` | asyn/asyn/asynDriver/asynManager.c:1657-1739 | in every reachable state a user's port and device block counts are its accepted blocks minus its accepted unblocks, counted from the calls of the run |
| `PortCalls.BlocksExclude` | asyn/asyn/asynDriver/asynManager.c:867-927 | block exclusion in terms of calls alone: from the end of a callback whose user has blocked more often than unblocked, and as long as that is so, nobody else is called back on the port, or on that device |
| `PortCalls.BlockHoldsOff` | asyn/asyn/asynDriver/asynManager.c:875-927 | a run from the initial state that meets that hypothesis: a block in a callback, another user queues, the port thread goes on and back to sleep, and calls the other user only after the unblock |
| `PortCalls.RequestsAddUp` | asyn/asyn/asynDriver/asynManager.c:1479-1593 | the accepted requests of any run are just those that its calls ask for, in order |
| `PortCalls.QueueTakes` | asyn/asyn/asynDriver/asynManager.c:1513-1586 | an accepted user stands at the end of its queue, or at the front if it blocks and is the holder of port or device; a refused call changes nothing |
| `PortCalls.CancelTakes` | asyn/asyn/asynDriver/asynManager.c:1613-1654 | a cancel takes exactly the user's entry out of its one queue, keeps the order of the others and settles the request as cancelled |
| `PortCalls.TimeoutTakes` | asyn/asyn/asynDriver/asynManager.c:642-696 | a timeout does the same, settles the request as timed out and goes on to the timeout callback if there is one |
| `PortCalls.ChangeBreaksOff` | asyn/asyn/asynDriver/asynManager.c:937-940 | after a request, a cancel, a timeout or an announced enable during a callback the port thread starts no other callback but goes back to its event, and a signal is under way |
| `PortCalls.CallbacksStart` | asyn/asyn/asynDriver/asynManager.c:800-893 | in every reachable state a process callback is only started when no connect request is queued, for a queued user on its own enabled device, and never on waking up to a disabled port |
| `PortCalls.UsersAndDevices` | asyn/asyn/asynDriver/asynManager.c:2142-2156 | over any run a user sits on the device it was last connected to, and a device is disabled exactly if the last enable said so |
| `PortManager.PortPvt.Queue` | asyn/asyn/asynDriver/asynManager.c:1479-1593 | the new state is the queueing step of the old one; success and disabled are returned exactly under the source's conditions on user, port and timeout |
| `PortManager.PortPvt.Cancel` | asyn/asyn/asynDriver/asynManager.c:1595-1655 | the new state is the cancel step of the old one |
| `PortManager.PortPvt.Timeout` | asyn/asyn/asynDriver/asynManager.c:642-696 | the new state is the timeout step of the old one |
| `PortManager.PortPvt.DeleteFromQueues` | asyn/asyn/asynDriver/asynManager.c:657-667 | the loops delete the user's entry found from the connect queue down, and report whether there was one |
| `PortManager.PortPvt.BlockProcessCallback` | asyn/asyn/asynDriver/asynManager.c:1657-1688 | exactly the user's count of the chosen kind grows by one, and nothing if the call is refused; the new state is the block step of the old one |
| `PortManager.PortPvt.UnblockProcessCallback` | asyn/asyn/asynDriver/asynManager.c:1690-1739 | exactly the user's count of the chosen kind goes down by one unless it is 0 or the call is refused; the new state is the unblock step of the old one; it signals exactly when a holder was released |
| `PortManager.PortPvt.FindNext` | asyn/asyn/asynDriver/asynManager.c:864-893 | the nested loops find the entry that the scan of the step system picks, if any |
| `PortManager.PortPvt.ConnectOrScan` | asyn/asyn/asynDriver/asynManager.c:804-900 | one round of the port thread is the step of the step system |
| `PortManager.PortPvt.AfterCallback` | asyn/asyn/asynDriver/asynManager.c:915-941 | after a callback the holders are recorded and the thread scans on, or breaks off if the queue state changed |
| `QueueLock.LockedUntilLastUnlock` | asyn/asyn/asynDriver/asynManager.c:1814-1918 | over every run from the return of a successful queueLockPort, as long as it and its nested calls outnumber the unlock calls, the port thread is parked and nobody else has the lock; exactly the unlock call that makes the numbers equal releases the mutex, and lets the port thread go on |
| `QueueLock.LockQueuesCopy` | asyn/asyn/asynDriver/asynManager.c:1824-1852 | the copy sits on the caller's device and is queued last in the low queue; a refusal, only by a disabled port, gives the mutex back |
| `QueueLock.LockParksPortThread` | asyn/asyn/asynDriver/asynManager.c:942-963 | in every reachable state between a successful outermost queueLockPort and its outermost queueUnlockPort the port thread is parked in that thread's callback, cannot go on, and no second thread holds the lock |
| `QueueLock.BlockedCallersAreServed` | asyn/asyn/asynDriver/asynManager.c:1784-1920 | a blocked queueLockPort is still queued, about to be signalled or signalled; for a blocked queueUnlockPort the port thread can go on; an idle thread has left its mutex and event empty, and every thread that is not blocked can make its next move |
| `QueueLock.TimeoutMeansNotLocked` | asyn/asyn/asynDriver/asynManager.c:965-985 | queueLockPort reports a timeout exactly when the timer and not the port thread took its copy |
| `QueueLock.MoveKeeps` | asyn/asyn/asynDriver/asynManager.c:1784-1920 | every move of clients, timer and port thread keeps the handshake's invariant |
| `InterruptList.ListIsFrozen` | asyn/asyn/asynDriver/asynManager.c:2435-2470 | the callback list does not change between start and end in any run |
| `InterruptList.NoCallerIsForgotten` | asyn/asyn/asynDriver/asynManager.c:2367-2433 | in every reachable state a node is on the add/remove list only during a flagged walk, and every blocked caller is either on it or signalled, not both; the callback list holds each added node once |
| `InterruptList.ListFollowsCalls` | asyn/asyn/asynDriver/asynManager.c:2367-2433 | in every reachable state the callback list holds exactly the nodes whose last call that did its work was an add, in the order in which these were done |
| `InterruptList.ReturnsWithItsWish` | asyn/asyn/asynDriver/asynManager.c:2377-2431 | a caller that returns, at once or after its wake, has its node on the list or off it as it wished; otherwise it is on the add/remove list and waits |
| `InterruptList.InterruptBase.AddPass` | asyn/asyn/asynDriver/asynManager.c:2377-2397 | without a walk the node is appended to the list and flagged, during a walk the list stays; the pass is the step, and says whether the caller must wait |
| `InterruptList.InterruptBase.RemovePass` | asyn/asyn/asynDriver/asynManager.c:2411-2431 | without a walk exactly the node leaves the list, the others in order, during a walk the list stays; the pass is the step |
| `InterruptList.InterruptBase.InterruptEnd` | asyn/asyn/asynDriver/asynManager.c:2448-2470 | the loop takes every node off the add/remove list and signals it |
| `InterruptList.NestedStartForgets` | asyn/asyn/asynDriver/asynManager.c:2435-2470 | from every state of the invariant, after a nested start and any calls, the next end wakes every waiter if and only if nobody was queued at that start or somebody has queued up since |
| `InterruptList.NestedStartBothWays` | asyn/asyn/asynDriver/asynManager.c:2435-2470 | a run of two starts in which an adder is never woken, and one in which a second adder saves it |
| `LineInput.ChunkIndependence` | StreamDevice/src/StreamCore.cc:1008-1057 | unless terminator and maxInput are both set, for every split of a stream into chunks and every placing of `in` commands, they get exactly the first lines of the whole stream, an `in` waits exactly if its line is not there yet, and lines, terminators and leftover are the bytes received |
| `LineInput.SameStreamSameLines` | StreamDevice/src/StreamCore.cc:1078-1132 | two ways to cut the same stream give the same lines and the same leftover |
| `LineInput.SearchStartIsEnough` | StreamDevice/src/StreamCore.cc:1032-1049 | the search from just before the new bytes finds what a full search finds |
| `LineInput.ReceiveFindsFirst` | StreamDevice/src/StreamCore.cc:1008-1132 | a chunk for an active `in` gives the first line of the buffer, or waits for more if there is none |
| `LineInput.ReceiveIsSensible` | StreamDevice/src/StreamCore.cc:1050-1132 | for every status: a line makes a nonempty rest shorter, and with maxInput more is wanted only below it |
| `LineInput.IndependentIff` | StreamDevice/src/StreamCore.cc:1008-1077 | for every configuration: bytes received and number of `in` commands determine lines, leftover and waiting, if and only if terminator and maxInput are not both set |
| `LineInput.LimitAndTerminatorDiffer` | StreamDevice/src/StreamCore.cc:1058-1077 | for every terminator and every maxInput: the longest line and its terminator in one chunk are one line, in two chunks a line and an empty line |
| `StreamInput.LinesInEveryRun` | StreamDevice/src/StreamCore.cc:907-1165 | for every protocol, every bus and every sequence of calls, with any status, unless terminator and maxInput are both set: each line that is matched is the first one in the buffer, or at the end of input all of it; from an empty buffer on the lines matched are the first lines of the bytes received, nothing is lost but what is dropped, and an `in` that waits for input has taken every line that is there |
| `StreamInput.AskedBytesComplete` | StreamDevice/src/StreamCore.cc:1089-1098 | with maxInput alone, a chunk completes the line exactly if it has at least the number of bytes that readCallback returned |
| `StreamInput.LinesTakenWell` | StreamDevice/src/StreamCore.cc:1008-1132 | in a trace that the automaton for lines accepts, between any two positions without dropped or cut off input, the lines are the first lines of the bytes that arrived, and lines, terminators and buffer are these bytes |
| `StreamInput.ReceiveTakes` | StreamDevice/src/StreamCore.cc:1008-1132 | a chunk with any status that brings input: the first line if there is one, otherwise waiting on success and all bytes at the end of input or after a timeout |
| `StreamInput.RespondInput` | StreamDevice/src/StreamCore.cc:423-1784 | every call keeps the buffer equal to what the trace says and leaves no line in it for an `in` that waits |
| `StreamInput.ReadInput` | StreamDevice/src/StreamCore.cc:942-1165 | more bytes are only asked for if there is no line in the buffer: as many as are left up to maxInput, or an unknown number |
| `StreamProgress.CommandsInEveryRun` | StreamDevice/src/StreamCore.cc:423-592 | for every protocol, every bus and every sequence of calls: the commands begun are a prefix of the code of the run, or of the handler for the last error, in order and each once; success is only noted when all of them were begun, or at an `end`; the next command only follows an `out` whose output was written |
| `StreamProgress.CodeTakenWell` | StreamDevice/src/StreamCore.cc:546-592 | every trace that the automaton for code accepts has that order between any two positions |
| `StreamProgress.FirstErrorHandled` | StreamDevice/src/StreamCore.cc:484-535 | a first error outside @init evaluates its own handler, named by the field of the protocol; a mismatch handler that starts with `in` goes on behind it if the old line matches, otherwise the mismatch is reported |
| `StreamProgress.FirstErrorKept` | StreamDevice/src/StreamCore.cc:823-1784 | each refused or failed request has its own error, and the first one of a run is remembered whatever its handler does |
| `StreamProgress.BadLineKept` | StreamDevice/src/StreamCore.cc:1099-1152 | the same for an incomplete line and for a line that does not match |
| `StreamProgress.BadLineRestarts` | StreamDevice/src/StreamCore.cc:1099-1160 | in asynchronous mode they are no errors: the same `in` waits again, with an empty buffer |
| `StreamProgress.RefusedKept` | StreamDevice/src/StreamCore.cc:852-1759 | the same for a refused write, disconnect and shell command |
| `StreamProgress.BadOutputKept` | StreamDevice/src/StreamCore.cc:596-632 | the same for an output that cannot be formatted and for a refused lock request |
| `LineInput.FindLeast` | StreamDevice/src/StreamBuffer.cc:183-207 | the result of the search is the least match, or there is none |
| `StreamRuns.AnyRun` | StreamDevice/src/StreamCore.cc:460-592 | for every protocol, every behaviour of the bus and every sequence of calls, in any order: no success after an error of the same run that is not @init, at most one handler in a run, and without asynchronous mode every call ends |
| `StreamRuns.OwnershipIsKnown` | StreamDevice/src/StreamCore.cc:434-865 | for every protocol, every bus and every order of calls and answers: the owner flag agrees with the locks and unlocks so far, none of them misused, if and only if no protocol was started while the core was owner |
| `StreamRuns.BusIsUsedWell` | StreamDevice/src/StreamCore.cc:537-865 | then, in any order of answers, accepted locks and unlocks alternate, writes happen under the lock, and at most one of the pending flags is set |
| `StreamRuns.OrderlyRun` | StreamDevice/src/StreamCore.cc:434-865 | if moreover every call comes in turn, the active command waits for its own answer and an ended run has given the bus back, so that no protocol is started as owner |
| `StreamRuns.StartAsOwnerMisusesBus` | StreamDevice/src/StreamCore.cc:423-457 | an aborted init run that gets its lock after all: the next run is started as owner and locks a second time without an unlock in between |
| `StreamRuns.AwaitedAnswerMoves` | StreamDevice/src/StreamCore.cc:823-1679 | an awaited answer, accepted input or an accepted event is never ignored: something is done and noted |
| `StreamRuns.SoonOrLater` | StreamDevice/src/StreamCore.cc:596-940 | it makes no difference whether the bus answers a lock, write, read or event before its request returns or right after |
| `StreamRuns.AbortSetsFlag` | StreamDevice/src/StreamCore.cc:480-529 | an abort ends the run; the Aborted flag is set afterwards if and only if it was set before or the run was neither @init nor in a handler |
| `StreamRuns.AbortedIsDeaf` | StreamDevice/src/StreamCore.cc:823-1784 | with the Aborted flag set every call but a start and another abort leaves the whole state as it is |
| `StreamRuns.AbortSilences` | StreamDevice/src/StreamCore.cc:480-543 | after an abort no sequence of answers reaches run or record, if and only if the flag is set or nothing was awaited |
| `StreamRuns.AbortedHandlerResumes` | StreamDevice/src/StreamCore.cc:1639-1653 | a handler that waits, an abort, then the timer: the run reports once more after it was reported aborted |
| `StreamRuns.EarlyEventIsLost` | StreamDevice/src/StreamCore.cc:1596-1619 | an accepted event has no effect but to clear its flag, if and only if a lock, a write or a timer is awaited |
| `StreamRuns.EarlyEventOccurs` | StreamDevice/src/StreamCore.cc:613-616 | an `out` that waits for the lock, followed by `event`: the event comes in turn, is accepted and is lost |
| `StreamRecursion.NeverReturnsIff` | StreamDevice/src/StreamCore.cc:907-1000 | evalIn and readCallback without new input never return if and only if the mode is asynchronous, unparsed input is left and the last status is a missing reply |
| `StreamRecursion.MarkedIffNeverReturns` | StreamDevice/src/StreamCore.cc:982-1000 | a missing reply is marked as diverging exactly when the two calls never return |
| `StreamRecursion.AsyncStartDiverges` | StreamDevice/src/StreamCore.cc:423-457 | with that state left behind, every asynchronous start of a protocol that begins with `in` diverges |
| `StreamRecursion.StaleStatusDiverges` | StreamDevice/src/StreamCore.cc:982-1000 | a run in which every call comes in turn and the last one never returns |
| `StreamMachine.Finish` | StreamDevice/src/StreamCore.cc:460-543 | an end without handler frees the bus and tells the record the original error, if there was one; errors stay sticky whatever is pending; knowledge of the owner is kept; the recursion through the handler ends |
| `StreamMachine.Eval` | StreamDevice/src/StreamCore.cc:546-592 | keeps sticky errors and knowledge of the owner always, waits for the right answer from a ready state, never ends a run silently, and ends, with the measure handler not yet entered, then code left |
| `StreamMachine.EvalOut` | StreamDevice/src/StreamCore.cc:596-638 | from a ready state the command then waits for the lock or, as owner, for the write; old input was dropped and early input for a following `in` is accepted |
| `StreamMachine.LockCallback` | StreamDevice/src/StreamCore.cc:823-865 | sticky errors and knowledge of the owner for an answer at any time; the right answer is awaited after one to the active `out` |
| `StreamMachine.WriteCallback` | StreamDevice/src/StreamCore.cc:867-888 | sticky errors and knowledge of the owner for an answer at any time; the right answer is awaited after one to the active `out` |
| `StreamMachine.ReadCallback` | StreamDevice/src/StreamCore.cc:942-1165 | sticky errors and knowledge of the owner for every status at any time; the right answer is awaited after input at any time and after other answers to an active `in`; a result other than 0 means that the same `in` still waits |
| `StreamMachine.EventCallback` | StreamDevice/src/StreamCore.cc:1596-1626 | sticky errors and knowledge of the owner for every status at any time; the right answer is awaited unless an error came while another answer was pending |
| `StreamMachine.Attentive` | StreamDevice/src/StreamCore.cc:1568-1594 | exactly an endless wait for an event in asynchronous mode gives the bus back; the event is accepted from then on |
| `StreamMachine.DisconnectCallback` | StreamDevice/src/StreamCore.cc:1762-1784 | at any time; a disconnect that was not asked for ends the run as offline |
| `StreamMachine.Respond` | StreamDevice/src/StreamCore.cc:423-1784 | every call keeps sticky errors; every call but a start as owner keeps knowledge of the owner, which that start loses for good; one that comes in turn leaves the active command waiting for its own answer |
| `StreamCore.StreamCore.StartProtocol` | StreamDevice/src/StreamCore.cc:423-457 | clearing the flags and choosing the code in place is the start of the state machine |
| `StreamCore.StreamCore.FinishProtocol` | StreamDevice/src/StreamCore.cc:460-543 | saving the status, looking for a handler and reporting in place is the finish of the state machine |
| `StreamCore.StreamCore.LookForHandler` | StreamDevice/src/StreamCore.cc:491-529 | write timeout, reply timeout, read timeout and mismatch give the protocol's handler of that name; a mismatch handler that starts with `in` is entered behind it, and only if the old line matches; other errors have none and drop all input, an abort sets the flag |
| `StreamCore.StreamCore.EvalCommand` | StreamDevice/src/StreamCore.cc:546-592 | refuses while an answer is awaited, otherwise takes the next command, as the state machine says |
| `StreamCore.StreamCore.EvalOut` | StreamDevice/src/StreamCore.cc:596-638 | the whole effect, through all callbacks the bus makes at once, is that of the state machine |
| `StreamCore.StreamCore.LockCallback` | StreamDevice/src/StreamCore.cc:823-865 | the same for a lock answer |
| `StreamCore.StreamCore.WriteCallback` | StreamDevice/src/StreamCore.cc:867-888 | the same for a write answer |
| `StreamCore.StreamCore.EvalIn` | StreamDevice/src/StreamCore.cc:907-940 | the same for `in`, with early input first |
| `StreamCore.StreamCore.ReadCallback` | StreamDevice/src/StreamCore.cc:942-1165 | the same for input, with the number of bytes still wanted |
| `StreamCore.StreamCore.EventCallback` | StreamDevice/src/StreamCore.cc:1596-1626 | the same for an event |
| `StreamCore.StreamCore.TimerCallback` | StreamDevice/src/StreamCore.cc:1639-1653 | the same for the timer |
| `StreamCore.StreamCore.EvalExec` | StreamDevice/src/StreamCore.cc:1656-1679 | the same for `exec`, with the bus released |
| `StreamCore.StreamCore.ConnectCallback` | StreamDevice/src/StreamCore.cc:1723-1749 | the same for a connect, which starts the init protocol after the end of a run |
| `StreamCore.StreamCore.DisconnectCallback` | StreamDevice/src/StreamCore.cc:1762-1784 | the same for a disconnect |
| `StreamCore.Drive` | StreamDevice/src/StreamCore.cc:423-1784 | any sequence of calls brings a new object to the state that the state machine reaches |
| `StreamTrace.BusUsedWell` | StreamDevice/src/StreamCore.cc:537-541 | the bus automaton accepts exactly the traces with alternating locks and unlocks and with writes only under a lock |
| `StreamTrace.ErrorsReportedWell` | StreamDevice/src/StreamCore.cc:480-536 | a trace that the run automaton accepts has sticky errors and single handlers, for all positions in it |
| `StreamTrace.LocksAlternate` | StreamDevice/src/StreamCore.cc:537-541 | between two accepted locks there is an unlock, between two unlocks a lock |
| `StreamTrace.ErrorIsSticky` | StreamDevice/src/StreamCore.cc:480-490 | after an error no later finish of a run that is not an init run reports success |
| `StreamTrace.OneHandler` | StreamDevice/src/StreamCore.cc:486-536 | between two handlers a run was started; a refused start does not count |
| `StreamTrace.NoHandlerInInit` | StreamDevice/src/StreamCore.cc:480-484 | between the start of an init run and a handler the flags were cleared |
| `Adler32.Compute` | StreamDevice/src/ChecksumConverter.cc:442-461 | in 32-bit words that never overflow, for every length and init, the result is that of the byte-by-byte definition in section 2.2 of RFC 1950 |
| `Adler32.SumBlock` | StreamDevice/src/ChecksumConverter.cc:449-455 | a block of up to 5550 bytes fits into 32 bits from any reduced start |
| `Adler32.Continues` | StreamDevice/src/ChecksumConverter.cc:442-461 | checksumming a concatenation is continuing from the first result |
| `PolynomialDivision.RegisterDivides` | StreamDevice/src/ChecksumConverter.cc:252-291 | a bit-serial register holds the remainder of long division by any divisor of any degree |
| `PolynomialDivision.RegisterLinear` | StreamDevice/src/ChecksumConverter.cc:252-291 | the register is linear in its contents and in the bits it is fed |
| `PolynomialDivision.MixFeeds` | StreamDevice/src/ChecksumConverter.cc:252-291 | the sum of the table entries of the bits of a byte is what a zero register becomes when it is fed that byte |
| `PolynomialDivision.LookupsDivide` | StreamDevice/src/ChecksumConverter.cc:252-291 | byte-wise table lookups give the remainder of long division of the whole message |
| `PolynomialDivision.AppendedRemainderCancels` | StreamDevice/src/ChecksumConverter.cc:252-291 | a message followed by its remainder has remainder 0 |
| `PolynomialDivision.RunLoop` | StreamDevice/src/ChecksumConverter.cc:285-291 | the loop of a CRC function applies its step to every byte in order |
| `Crc1021.Compute` | StreamDevice/src/ChecksumConverter.cc:252-291 | the low 16 bits of the unmasked 32-bit register are the remainder for 0x1021, for every message and init |
| `Crc1021.Table` | StreamDevice/src/ChecksumConverter.cc:254-287 | all 256 table entries are sums of eight, which the bit-serial register makes of the divisor |
| `Crc1021.AppendedCrcCancels` | StreamDevice/src/ChecksumConverter.cc:693-708 | appending the CRC most significant byte first drives the low 16 bits to 0 |
| `Crc8005R.Compute` | StreamDevice/src/ChecksumConverter.cc:210-250 | for every message and 32-bit init the result is the reflected remainder for 0x8005 times x^16; for an init below 2^16 it is below 2^16 and is the remainder for 0x8005 |
| `Crc8005R.WideDivisor` | StreamDevice/src/ChecksumConverter.cc:210-250 | the divisor of the unmasked 32-bit register is that of the 16-bit one times x^16 |
| `Crc8005R.Table` | StreamDevice/src/ChecksumConverter.cc:212-246 | all 256 table entries are sums of eight, which the bit-serial register makes of the divisor |
| `Crc8005R.AppendedCrcCancels` | StreamDevice/src/ChecksumConverter.cc:675-692 | for every message and 32-bit init, appending the two low bytes of the CRC, least significant first, leaves its upper half: the register becomes 0 if and only if the CRC is below 2^16, as it is for an init below 2^16 |
| `Crc04C11DB7R.Compute` | StreamDevice/src/ChecksumConverter.cc:367-440 | the result is the reflected remainder for 0x04C11DB7, as in section 8 of RFC 1952 |
| `Crc04C11DB7R.Table` | StreamDevice/src/ChecksumConverter.cc:369-436 | all 256 table entries are sums of eight, which the bit-serial register makes of the divisor |
| `ChecksumPseudo.PrintPseudo` | StreamDevice/src/ChecksumConverter.cc:638-711 | for every output made of `width` bytes, a message and `prec` bytes, the encoding of the masked checksum of the message is appended, in all four encodings and both byte orders |
| `ChecksumPseudo.EncodedSpells` | StreamDevice/src/ChecksumConverter.cc:666-709 | the encoding is the number in decimal, upper-case hexadecimal, nibbles or bytes, of fixed length, most significant first; least significant first it is the same with the bytes in reverse order |
| `ChecksumPseudo.PrintBig` | StreamDevice/src/ChecksumConverter.cc:690-709 | the 32-bit shifts send the bytes most significant first |
| `ChecksumPseudo.ScanPseudo` | StreamDevice/src/ChecksumConverter.cc:713-853 | for every input made of `width` bytes, a message and `prec` bytes before the cursor, what is accepted for the checksum of the message, exactly; what printing appends is accepted; nibbles and plain bytes accept nothing else; too short input is refused |
| `ChecksumPseudo.RoundTrip` | StreamDevice/src/ChecksumConverter.cc:638-853 | for every algorithm, window, encoding and following input the printed checksum is accepted and exactly its length consumed |
| `ChecksumPseudo.DecimalExact` | StreamDevice/src/ChecksumConverter.cc:753-772 | for every text of a decimal checksum: it is accepted if and only if its leading digits spell the checksum modulo 2^32 |
| `ChecksumPseudo.DecimalAcceptsOther` | StreamDevice/src/ChecksumConverter.cc:753-772 | a text that printing never appends and that is accepted |
| `ChecksumPseudo.DigitsAreEnough` | StreamDevice/src/ChecksumConverter.cc:666-673 | the decimal width is that of the largest checksum, not less and not more |
| `ChecksumPseudo.BigEndianHexExact` | StreamDevice/src/ChecksumConverter.cc:813-853 | for every text of big-endian hexadecimal: it is accepted for no other checksum than the one it spells, if and only if every byte of it can be read |
| `ChecksumPseudo.BigEndianHexAcceptsOther` | StreamDevice/src/ChecksumConverter.cc:813-823 | a text of the failing kind, which little endian rejects |
| `StreamBuffer.StreamBuffer.constructor` | StreamDevice/src/StreamBuffer.cc:79-101 | the contents are the given bytes, zeros follow, and minsize bytes fit |
| `StreamBuffer.StreamBuffer.Grow` | StreamDevice/src/StreamBuffer.cc:110-162 | contents and length stay, the offset becomes 0, minsize bytes fit, a zero tail stays zero |
| `StreamBuffer.StreamBuffer.Check` | StreamDevice/src/StreamBuffer.h:48-49 | afterwards size more bytes and a terminator fit behind the contents |
| `StreamBuffer.StreamBuffer.Append` | StreamDevice/src/StreamBuffer.cc:165-181 | appends, or deletes from the end for a negative size; a zero tail stays zero |
| `StreamBuffer.StreamBuffer.ClearAll` | StreamDevice/src/StreamBuffer.h:111-113 | empties the contents without moving bytes; a zero tail stays zero |
| `StreamBuffer.StreamBuffer.Reserve` | StreamDevice/src/StreamBuffer.h:115-118 | lengthens the contents, by zeros if the tail was zero |
| `StreamBuffer.StreamBuffer.Remove` | StreamDevice/src/StreamBuffer.h:178-181 | deletes from the start, at most all |
| `StreamBuffer.StreamBuffer.Replace` | StreamDevice/src/StreamBuffer.cc:209-294 | in all four storage cases, with every move in bounds, the contents are the edited sequence |
| `StreamBuffer.ReplacedIsEdit` | StreamDevice/src/StreamBuffer.cc:211-246 | the range arithmetic does the intended edit if and only if the range does not end before the start or the buffer is empty |
| `StreamBuffer.ReplacedInRange` | StreamDevice/src/StreamBuffer.cc:211-246 | in particular for every position from -len on |
| `StreamBuffer.ReplaceBeforeStart` | StreamDevice/src/StreamBuffer.cc:232-246 | an edit that should remove nothing and removes everything |
| `StreamBuffer.StreamBuffer.FindBytes` | StreamDevice/src/StreamBuffer.cc:183-207 | the memchr loop finds the least matching index from the start position on, or -1 |
| `EnumConverter.PrintLong` | StreamDevice/src/EnumConverter.cc:121-151 | prints the text of the first choice with the value, otherwise the default, otherwise fails |
| `EnumConverter.ScanLong` | StreamDevice/src/EnumConverter.cc:153-191 | returns value and length of the first choice that the input starts with, or fails |
| `EnumConverter.MatchIsPrefix` | StreamDevice/src/EnumConverter.cc:165-181 | a choice without wildcards matches exactly the inputs that start with its characters |
| `EnumConverter.PrintScan` | StreamDevice/src/EnumConverter.cc:121-191 | the choice is found again, whatever follows, if and only if no earlier choice can match there |
| `EnumConverter.PrefixFreeScans` | StreamDevice/src/EnumConverter.cc:121-191 | with texts that are pairwise not prefixes every listed value is found again |
| `EnumConverter.CompiledItems` | StreamDevice/src/EnumConverter.cc:129-181 | a compiled text stands for the characters and wildcards it was written for, whatever else is escaped in it |
| `EnumConverter.Parse` | StreamDevice/src/EnumConverter.cc:39-119 | the loop is the parse function, and parsed texts never end in a lone escape; a default only occurs in output formats |
| `EnumConverter.ParseSource` | StreamDevice/src/EnumConverter.cc:39-119 | parsing a written list, with numbers that a long can hold, gives back its texts and its numbers, counting up from the last assigned one |
| `EnumConverter.ParseWithDefault` | StreamDevice/src/EnumConverter.cc:39-119 | the same for a list, possibly empty, that ends with a default |
| `EnumConverter.PrintUnlisted` | StreamDevice/src/EnumConverter.cc:121-151 | with a default written as `=?`, every value that is not listed prints it |
| `BinaryConverter.SignificantBits` | StreamDevice/src/BinaryConverter.cc:66-80 | the bisection gives the least number of bits, at least one, that hold the value |
| `BinaryConverter.NeedsUnique` | StreamDevice/src/BinaryConverter.cc:66-80 | there is one such number |
| `BinaryConverter.ScanLong` | StreamDevice/src/BinaryConverter.cc:137-170 | skips white space, reads the digits the width allows, value modulo 2^64, or fails |
| `BinaryConverter.SpaceDigitsScan` | StreamDevice/src/BinaryConverter.cc:137-170 | if a digit is itself white space, no space is skipped and the text is read from its start |
| `BinaryConverter.TextScans` | StreamDevice/src/BinaryConverter.cc:64-170 | the printed text gives back the printed bits, and all digits are read if and only if the width is 0 or not less than the precision |
| `BinaryConverter.PrintLong` | StreamDevice/src/BinaryConverter.cc:64-135 | digits and padding for every bit order, side and fill, with the least sufficient precision by default |
| `BinaryConverter.TextIsPrinted` | StreamDevice/src/BinaryConverter.cc:82-133 | the text character by character: width, side of the digits, which bit each one shows, and fill by zeros only beside the most significant digit |
| `BinaryConverter.RoundTrip` | StreamDevice/src/BinaryConverter.cc:64-170 | with the default precision the value itself comes back, otherwise the value modulo 2^prec |
| `RawConverter.PrintLong` | StreamDevice/src/RawConverter.cc:42-98 | byte by byte: the low bytes of the value, one by default and eight at most, then zeros or copies of the sign up to the width, in both byte orders |
| `RawConverter.ScanLittle` | StreamDevice/src/RawConverter.cc:107-134 | the long of the bytes, least significant first; above eight bytes the long of the first eight, and one byte too few is consumed |
| `RawConverter.ScanBig` | StreamDevice/src/RawConverter.cc:135-153 | the long of the bytes, most significant first, for every width |
| `RawConverter.RoundTrip` | StreamDevice/src/RawConverter.cc:42-156 | scanning the print gives the sign or zero extension of the low prec bytes as a long and consumes just the printed bytes; eight bytes give back every long |

## Left out

- PortManager.PortPvt.Queue: the refusals of unconnected ports and devices and the start of the timeout timer are not modelled, because ports stay connected and a timeout may come at any time.
- PortManager.PortPvt.Cancel: the wait for a callback that is already running is not modelled.
- PortManager.PortPvt.FindNext: the branch for disconnected devices is not modelled.
- PortManager.PortPvt.ConnectOrScan: the test of the connected flag between the two loops is not modelled.
- PortManager.PortPvt.AfterCallback: callbackDone and freeAfterCallback are not modelled.
- Connecting, auto-connect and driver calls of asynManager: ports and devices stay connected in the model.
- `enable` writes its flag without the lock; a change in the middle of a scan is not modelled.
- Synchronous ports, `lockPortNotify` and exception users; which of processUser and timeoutUser the port thread calls.
- `connectDevice` for a user inside that user's own callback, which would let a holder change devices.
- Two timeout callbacks at the same time: the timer queue has one thread.
- Parsing of protocol files; a compiled protocol is a list of commands without their arguments, and formatting or matching a value may succeed or fail at any time. The boolean results of the eval functions are not modelled.
- A restart of the protocol from inside protocolFinishHook is modelled as the next call.
- StreamRuns.OrderlyRun: that the active command waits for its own answer is claimed for runs in which the client starts only ended protocols and the bus answers outstanding requests only; bus discipline needs neither (`BusIsUsedWell`).
- StreamRuns.AbortSilences: connect and disconnect callbacks are not among the answers; without the Aborted flag they always reach the record.
- `exec`, connect, disconnect and asynchronous read requests are answered later, never before the request returns.
- CRC tables other than 0x1021, reflected 0x8005 and reflected 0x04C11DB7, and the simple sums of the checksum map.
- Parsing of the checksum name, and sscanf itself, which is a parameter that reads two hexadecimal digits.
- The zero tail after `replace` and `print`: an in-place edit may fill the buffer to the last byte and the move branch does not blank old bytes.
- Insert data that aliases the buffer, and size arithmetic beyond size_t.
- EnumConverter.Parse: a lone escape at the very end of the format counts as a failure, where the code appends the terminator and reads past it; an index that counts up beyond the largest long is not wrapped.
- BinaryConverter.PrintLong: a precision above 64 is not covered, because the code shifts by more bits than a long has.
- BinaryConverter.RoundTrip: a precision of 0 prints no digit that could be read back.
- RawConverter.PrintLong: big endian with precision 0 is not covered, because the code shifts by a negative amount.
- RawConverter.ScanLittle: a width of nine is not covered, because the code shifts by as many bits as a long has; the skip flag is left out.
- The other converters (BCD, float, regular expression, timestamp), StreamEpics and the bus drivers.
