/**
 The state of the protocol interpreter StreamCore and what holds of it: always,
 while a command is evaluated, and whenever no call is under way.
 */
module StreamState {
  import opened Basics
  import opened LineInput
  import opened StreamTrace

  type Code = seq<Command>

  datatype Protocol = Protocol(
    commands: Option<Code>, onInit: Option<Code>,
    onWriteTimeout: Code, onReplyTimeout: Code, onReadTimeout: Code, onMismatch: Code,
    input: Config, asyncRead: bool)

  /** One answer: whether a request is accepted or a value fits, whether the bus
      calls back at once, and with what. */
  datatype Answer = Answer(yes: bool, now: bool, status: IoStatus, chunk: Bytes)

  /** The answers to all questions, in order. */
  type World = nat -> Answer

  datatype Env = Env(protocol: Protocol, world: World)

  datatype Flags = Flags(initRun: bool, asyncMode: bool, acceptInput: bool, acceptEvent: bool, aborted: bool)

  datatype BusFlags = BusFlags(owner: bool, lockPending: bool, writePending: bool, waitPending: bool)

  const NO_BUS := BusFlags(false, false, false, false)

  datatype Core = Core(
    code: Code,                         // what commandIndex points to
    activeCommand: Command,
    runningHandler: Result,
    flags: Flags,
    bus: BusFlags,
    input: Pending, lastInputStatus: IoStatus,
    asked: nat,                         // questions asked so far
    diverged: bool,                     // a call did not return
    trace: Trace)

  const INITIAL := Core([], End, Success, Flags(false, false, false, false, false), NO_BUS,
                        NOTHING, IoSuccess, 0, false, Empty)

  predicate BusPending(c: Core) { c.bus.lockPending || c.bus.writePending || c.bus.waitPending }

  predicate HasHandler(s: Result) {
    s == WriteTimeout || s == ReplyTimeout || s == ReadTimeout || s == ScanError
  }

  function Locking(c: Core, yes: bool): Core { c.(bus := c.bus.(lockPending := yes)) }

  function Writing(c: Core): Core { c.(bus := c.bus.(writePending := true)) }

  function Listening(c: Core, yes: bool): Core { c.(flags := c.flags.(acceptEvent := yes)) }

  /** No answer is awaited any more. */
  function Forgotten(c: Core): Core { c.(bus := BusFlags(c.bus.owner, false, false, false)) }

  function Tell(c: Core, n: Note): Core { c.(trace := Noted(c.trace, n)) }

  /** The buffer is emptied. */
  function Dropping(c: Core, p: Pending): Core { Tell(c.(input := p), Dropped) }

  function Heard(env: Env, c: Core): Answer { env.world(c.asked) }

  function Asked(c: Core): Core { c.(asked := c.asked + 1) }

  /** Error handlers that can still be entered. */
  function Handlers(c: Core): nat { if c.runningHandler == Success && !c.flags.initRun then 1 else 0 }

  function Backlog(c: Core): nat { if c.flags.asyncMode && c.input.unparsed then |c.input.buffer| + 1 else 0 }

  // ---- Calls from outside ----

  datatype StartMode = StartNormal | StartInit | StartAsync

  datatype Call =
    | Start(mode: StartMode)
    | LockAnswer(status: IoStatus)
    | WriteAnswer(status: IoStatus)
    | ReadAnswer(status: IoStatus, chunk: Bytes)
    | EventAnswer(status: IoStatus)
    | Timer
    | ExecAnswer(status: IoStatus)
    | ConnectAnswer(status: IoStatus)
    | DisconnectAnswer(status: IoStatus)
    | AbortRun

  /** A protocol is started, by the client or after a connect, while the core owns the bus. */
  predicate StartsAsOwner(c: Core, call: Call) {
    c.bus.owner && (call.Start? || (call.ConnectAnswer? && c.activeCommand == End && !c.flags.aborted))
  }

  /** The client starts only ended runs, and the bus answers outstanding
      requests only: locks and writes of the active `out`, errors of the active
      `in`. Input may come at any time; an event that comes while another answer
      is awaited is not an error. */
  predicate InTurn(c: Core, call: Call) {
    match call
    case Start(_) => c.activeCommand == End
    case LockAnswer(_) => c.bus.lockPending ==> c.activeCommand == Out
    case WriteAnswer(_) => c.bus.writePending ==> c.activeCommand == Out
    case ReadAnswer(status, _) => c.flags.aborted || c.activeCommand == In || status == IoSuccess || status == IoEnd
    case EventAnswer(status) => c.flags.acceptEvent && BusPending(c) ==> status == IoSuccess
    case _ => true
  }

  // ---- What is kept ----

  /** The record of the first error agrees with the trace, and the trace reports errors correctly. */
  predicate RunFine(c: Core) {
    var r := RunOf(c.trace);
    && r.Run? && r.init == c.flags.initRun
    && (r.failed && !r.init ==> c.runningHandler != Success)
    && (r.handled ==> c.runningHandler != Success)
    && (r.init ==> c.runningHandler == Success)
  }

  /** A command is active, or something was noted. */
  predicate Moved(c: Core, d: Core) { d.activeCommand != End || Length(c.trace) < Length(d.trace) }

  /** The mode and the first error stay, the trace grows, no run ends silently, code is only
      gained by entering a handler, and only asynchronous mode can recurse for ever. */
  predicate Goes(c: Core, d: Core) {
    && RunFine(d) && Length(c.trace) <= Length(d.trace)
    && d.flags.asyncMode == c.flags.asyncMode
    && (c.activeCommand != End ==> Moved(c, d))
    && (c.diverged ==> d.diverged) && (d.diverged && !c.diverged ==> c.flags.asyncMode)
    && (Length(c.trace) == Length(d.trace) ==> |d.code| <= |c.code|)
    && (c.runningHandler != Success ==> d.runningHandler == c.runningHandler)
  }

  /** The core owns the bus exactly when the trace says so, and the trace uses the bus correctly. */
  predicate BusKnown(c: Core) { BusOf(c.trace) == if c.bus.owner then Held else Free }

  predicate AtMostOnePending(b: BusFlags) {
    !(b.lockPending && b.writePending) && !(b.lockPending && b.waitPending) && !(b.writePending && b.waitPending)
  }

  /** Ownership is known, and one answer at most is awaited, a lock only without ownership. */
  predicate Sound(c: Core) {
    BusKnown(c) && AtMostOnePending(c.bus) && (c.bus.lockPending ==> !c.bus.owner)
  }

  /** The core has lost track of a lock that it still has. */
  predicate Lost(c: Core) { BusOf(c.trace) == Misused || (BusOf(c.trace) == Held && !c.bus.owner) }

  predicate BusKept(c: Core, d: Core) { (Sound(c) ==> Sound(d)) && (Lost(c) ==> Lost(d)) }

  /** Nothing is awaited: the next command may be evaluated. */
  predicate Ready(c: Core) { BusKnown(c) && !BusPending(c) && !c.flags.aborted }

  predicate Reading(c: Core) { Ready(c) && c.activeCommand == In && c.flags.acceptInput }

  /** `out` dropped old input; new input is accepted if the next command wants it. */
  predicate Flushed(c: Core) {
    c.flags.acceptInput || (c.input == NOTHING && !(c.code != [] && c.code[0] == In))
  }

  /** What holds whenever no call is under way: the active command waits for its own answer. */
  predicate Waiting(c: Core) {
    var a, b, f := c.activeCommand, c.bus, c.flags;
    && BusKnown(c) && AtMostOnePending(b)
    && (a == End ==> !b.owner && !f.acceptInput && !f.acceptEvent)
    && (a != End ==>
          && !f.aborted
          && (a == Out <==> b.lockPending || b.writePending)
          && (a == Wait <==> b.waitPending)
          && (b.lockPending ==> !b.owner) && (b.writePending ==> b.owner))
    && (a == Out ==> Flushed(c))
    && (a == In ==> f.acceptInput && (f.asyncMode && !c.diverged ==> !b.owner))
    && (a.Event? && f.asyncMode && a.endless ==> !b.owner)
    && (a == Exec ==> !b.owner)
    && a != Illegal
  }

  /** The run is over, the bus is free and the record was told last. */
  predicate Ended(c: Core, status: Result) {
    && c.activeCommand == End && !c.bus.owner && !c.flags.acceptInput && !c.flags.acceptEvent
    && c.trace.Noted? && c.trace.note == Finished(status)
  }

  function FinishStatus(c: Core, result: Result): Result {
    if result == Success && BusPending(c) then Fault else result
  }

  /** What the record is told if no handler is entered: the original error, if there was one. */
  function Reported(c: Core, result: Result): Result {
    var status := FinishStatus(c, result);
    if Handlers(c) == 0 && status == Success then c.runningHandler else status
  }

  predicate MayFinish(c: Core, result: Result) {
    BusKnown(c) && AtMostOnePending(c.bus) && (HasHandler(result) ==> !BusPending(c) && !c.flags.aborted)
  }
}
