/**
 The protocol interpreter StreamCore over an abstract bus, as functions on its
 state. The bus may refuse a request, answer it before the request returns, or
 answer it later; values may fail to format or to match. These answers come
 from an arbitrary `World`. Commands call each other through the callbacks of
 the bus, so one call can run a whole protocol; the `decreases` clauses show
 that it ends, with the measure: handler not yet entered, then code left.
 */
module StreamMachine {
  import opened Basics
  import opened LineInput
  import opened StreamTrace
  import opened StreamState

  // ---- finishProtocol ----

  function Unlock(c: Core): (d: Core)
    requires RunFine(c)
    ensures Goes(c, d) && BusKept(c, d) && !d.bus.owner && RunOf(d.trace) == RunOf(c.trace) && (BusKnown(c) ==> BusKnown(d))
  {
    if c.bus.owner then Tell(c.(bus := c.bus.(owner := false)), Unlocked) else c
  }

  /** The bus is given back and the record is told. */
  function Report(c: Core, status: Result): (d: Core)
    requires RunFine(c) && c.activeCommand == End
    requires !c.flags.initRun && RunOf(c.trace).failed ==> status != Success
    ensures Goes(c, d) && BusKept(c, d) && Ended(d, status) && Length(d.trace) > Length(c.trace)
    ensures BusKnown(c) && AtMostOnePending(c.bus) ==> Waiting(d)
  {
    var d := Unlock(c);
    Tell(d.(flags := d.flags.(acceptInput := false, acceptEvent := false)), Finished(status))
  }

  /** The first status of a run that is not @init is kept. */
  function Record(c: Core, status: Result): (d: Core)
    requires RunFine(c)
    ensures Goes(c, d) && BusKept(c, d) && Length(d.trace) > Length(c.trace) && BusOf(d.trace) == BusOf(c.trace)
    ensures RunOf(d.trace) == RunOf(c.trace).(failed := RunOf(c.trace).failed || status != Success)
  {
    Tell(c, Failing(status)).(activeCommand := End, runningHandler := if Handlers(c) == 1 then status else c.runningHandler)
  }

  /** A handler that starts with `in` parses the mismatching line again; other
      errors than those with handlers drop all input. */
  function FindHandler(env: Env, c: Core, status: Result): (r: (Core, Option<Code>))
    ensures r.1.Some? ==> HasHandler(status)
    ensures r.0 == c.(asked := r.0.asked, flags := r.0.flags, input := r.0.input, trace := r.0.trace)
    ensures RunOf(r.0.trace) == RunOf(c.trace) && BusOf(r.0.trace) == BusOf(c.trace) && Length(r.0.trace) >= Length(c.trace)
    ensures r.0.flags == c.flags.(aborted := r.0.flags.aborted) && (HasHandler(status) ==> r.0.flags == c.flags)
  {
    var p := env.protocol;
    if status == Success then (c, None)
    else if status == WriteTimeout then (c, Some(p.onWriteTimeout))
    else if status == ReplyTimeout then (c, Some(p.onReplyTimeout))
    else if status == ReadTimeout then (c, Some(p.onReadTimeout))
    else if status == ScanError then
      if p.onMismatch != [] && p.onMismatch[0] == In
      then (Asked(c), if Heard(env, c).yes then Some(p.onMismatch[1..]) else None)
      else (c, Some(p.onMismatch))
    else (Dropping(c.(flags := c.flags.(aborted := c.flags.aborted || status == Abort)), NOTHING), None)
  }

  function Finish(env: Env, c: Core, result: Result): (d: Core)
    requires RunFine(c)
    ensures Goes(c, d) && BusKept(c, d)
    ensures Length(d.trace) > Length(c.trace)
    ensures MayFinish(c, result) ==> Waiting(d)
    ensures !HasHandler(result) ==> Ended(d, Reported(c, result))
    ensures Handlers(c) == 1 ==> d.runningHandler == FinishStatus(c, result)
    decreases Handlers(c), |c.code|, 0, 1
  {
    var status := FinishStatus(c, result);
    var d := Record(c, status);
    if Handlers(c) == 0 then Report(d, if status == Success then c.runningHandler else status)
    else HandleFirst(env, d, status)
  }

  function HandleFirst(env: Env, c: Core, status: Result): (d: Core)
    requires RunFine(c) && c.activeCommand == End && !c.flags.initRun && !RunOf(c.trace).handled && c.runningHandler == status
    ensures Goes(c, d) && BusKept(c, d)
    ensures MayFinish(c, status) ==> Waiting(d)
    ensures !HasHandler(status) ==> Ended(d, status)
    ensures d.runningHandler == status
    decreases if HasHandler(status) then 1 else 0, 0, 0, 0
  {
    var (d, handler) := FindHandler(env, c, status);
    if handler.Some? then StartHandler(env, d, handler.value) else Report(d, status)
  }

  function StartHandler(env: Env, c: Core, handler: Code): (d: Core)
    requires RunFine(c) && !c.flags.initRun && c.runningHandler != Success && !RunOf(c.trace).handled
    ensures Goes(c, d) && BusKept(c, d)
    ensures Ready(c) ==> Waiting(d)
    decreases Handlers(c), |handler|, 0, 3
  {
    Eval(env, Tell(c, Handling).(code := handler))
  }

  // ---- evalCommand ----

  /** The next command becomes the active one. */
  function Begun(c: Core): (d: Core)
    requires RunFine(c) && c.code != []
    ensures Goes(c, d) && BusKept(c, d) && Length(c.trace) < Length(d.trace) && (Ready(c) ==> Ready(d))
    ensures Handlers(d) == Handlers(c) && |d.code| < |c.code|
  {
    Tell(c, Began(c.code[0])).(activeCommand := c.code[0], code := c.code[1..])
  }

  function Eval(env: Env, c: Core): (d: Core)
    requires RunFine(c)
    ensures Goes(c, d) && BusKept(c, d)
    ensures (if BusPending(c) then Waiting(c) else Ready(c)) ==> Waiting(d)
    ensures !BusPending(c) ==> Length(c.trace) < Length(d.trace)
    decreases Handlers(c), |c.code|, 0, 2
  {
    if BusPending(c) then c
    else if c.code == [] then Finish(env, c.(activeCommand := End), Success)
    else EvalActive(env, Begun(c))
  }

  function EvalActive(env: Env, c: Core): (d: Core)
    requires RunFine(c) && !BusPending(c)
    ensures Goes(c, d) && BusKept(c, d)
    ensures Ready(c) ==> Waiting(d)
    decreases Handlers(c), |c.code|, Backlog(c), 11
  {
    match c.activeCommand
    case Out => EvalOut(env, c)
    case In => EvalIn(env, c)
    case Wait => c.(bus := c.bus.(waitPending := true))
    case Event(_) => EvalEvent(env, c)
    case Exec => EvalExec(env, c)
    case Connect => Asked(c)
    case Disconnect => if Heard(env, c).yes then Asked(c) else Finish(env, Asked(c), Fault)
    case End => Finish(env, c, Success)
    case Illegal => Finish(env, Forgotten(c), Fault)
  }

  // ---- out ----

  /** Unread input is flushed, and the output is formatted. */
  function Emptied(c: Core): Core { Asked(Dropping(c, NOTHING)) }

  /** Input or an event may come before the next command starts. */
  function Prepared(c: Core): Core {
    c.(flags := c.flags.(
         acceptInput := c.flags.acceptInput || (c.code != [] && c.code[0] == In),
         acceptEvent := c.flags.acceptEvent || (c.code != [] && c.code[0].Event?)))
  }

  function EvalOut(env: Env, c: Core): (d: Core)
    requires RunFine(c) && !BusPending(c) && c.activeCommand == Out
    ensures Goes(c, d) && BusKept(c, d)
    ensures Ready(c) ==> Waiting(d)
    decreases Handlers(c), |c.code|, 0, 10
  {
    if Heard(env, c).yes then Send(env, Prepared(Emptied(c))) else Finish(env, Emptied(c), FormatError)
  }

  function Send(env: Env, c: Core): (d: Core)
    requires RunFine(c) && !BusPending(c) && c.activeCommand == Out
    ensures Goes(c, d) && BusKept(c, d)
    ensures Ready(c) && Flushed(c) ==> Waiting(d)
    decreases Handlers(c), |c.code|, 0, 9
  {
    if c.bus.owner then WriteRequest(env, Writing(c)).0 else AskForBus(env, c)
  }

  function AskForBus(env: Env, c: Core): (d: Core)
    requires RunFine(c) && !BusPending(c) && c.activeCommand == Out && !c.bus.owner
    ensures Goes(c, d) && BusKept(c, d)
    ensures Ready(c) && Flushed(c) ==> Waiting(d)
    decreases Handlers(c), |c.code|, 0, 8
  {
    var (d, accepted) := LockRequest(env, Locking(c, true));
    if accepted then d else Finish(env, Locking(d, false), Offline)
  }

  function LockRequest(env: Env, c: Core): (r: (Core, bool))
    requires RunFine(c)
    ensures Goes(c, r.0) && BusKept(c, r.0) && (!r.1 ==> r.0 == Asked(c))
    ensures Waiting(c) && c.activeCommand == Out ==> Waiting(r.0)
    decreases Handlers(c), |c.code|, 0, 7
  {
    var a, d := Heard(env, c), Asked(c);
    if a.yes && a.now then (LockCallback(env, d, a.status), true) else (d, a.yes)
  }

  function LockCallback(env: Env, c: Core, status: IoStatus): (d: Core)
    requires RunFine(c)
    ensures Goes(c, d) && BusKept(c, d)
    ensures Waiting(c) && (c.bus.lockPending ==> c.activeCommand == Out) ==> Waiting(d)
    decreases Handlers(c), |c.code|, 0, 6
  {
    if c.flags.aborted || !c.bus.lockPending then c
    else if status == IoSuccess then WriteFirst(env, Owning(c))
    else Finish(env, Locking(c, false), if status == IoTimeout || status == IoFault then LockTimeout else Fault)
  }

  /** The lock was granted. */
  function Owning(c: Core): (d: Core)
    requires RunFine(c) && c.bus.lockPending
    ensures Goes(c, d) && d.bus.owner && (Sound(c) ==> Sound(d) && !BusPending(d)) && (Lost(c) ==> Lost(d))
    ensures Handlers(d) == Handlers(c) && d.code == c.code && d.activeCommand == c.activeCommand && d.flags == c.flags
    ensures Waiting(c) && c.activeCommand == Out ==> Ready(d) && Flushed(d)
  {
    var d := Locking(c, false);
    Tell(d.(bus := d.bus.(owner := true)), Locked)
  }

  function WriteFirst(env: Env, c: Core): (d: Core)
    requires RunFine(c) && c.bus.owner
    ensures Goes(c, d) && (!BusPending(c) ==> BusKept(c, d)) && (Lost(c) ==> Lost(d))
    ensures Ready(c) && c.activeCommand == Out && c.bus.owner && Flushed(c) ==> Waiting(d)
    decreases Handlers(c), |c.code|, 0, 5
  {
    var (d, accepted) := WriteRequest(env, Writing(c));
    if accepted then d else Finish(env, d, Fault)
  }

  function WriteRequest(env: Env, c: Core): (r: (Core, bool))
    requires RunFine(c) && c.bus.owner
    ensures Goes(c, r.0) && BusKept(c, r.0) && (!r.1 ==> r.0 == Asked(Tell(c, Written)))
    ensures Waiting(c) && c.activeCommand == Out && c.bus.writePending ==> Waiting(r.0)
    decreases Handlers(c), |c.code|, 0, 4
  {
    var a, d := Heard(env, c), Asked(Tell(c, Written));
    if a.yes && a.now then (WriteCallback(env, d, a.status), true) else (d, a.yes)
  }

  function WriteCallback(env: Env, c: Core, status: IoStatus): (d: Core)
    requires RunFine(c)
    ensures Goes(c, d) && BusKept(c, d)
    ensures Waiting(c) && (c.bus.writePending ==> c.activeCommand == Out) ==> Waiting(d)
    decreases Handlers(c), |c.code|, 0, 3
  {
    if c.flags.aborted || !c.bus.writePending then c
    else
      var d := c.(bus := c.bus.(writePending := false));
      if status == IoSuccess then Eval(env, d) else Finish(env, d, WriteTimeout)
  }

  // ---- in ----

  function EvalIn(env: Env, c: Core): (d: Core)
    requires RunFine(c)
    ensures Goes(c, d) && BusKept(c, d)
    ensures Ready(c) && c.activeCommand == In ==> Waiting(d)
    decreases Handlers(c), |c.code|, Backlog(c), 8
  {
    var d := c.(flags := c.flags.(acceptInput := true));
    if d.input.unparsed then
      var (e, more) := ReadCallback(env, d, d.lastInputStatus, []);
      if more == 0 then e else AskForInput(env, e)
    else AskForInput(env, d)
  }

  /** In asynchronous mode the bus is released and the read is answered later. */
  function AskForInput(env: Env, c: Core): (d: Core)
    requires RunFine(c)
    ensures Goes(c, d) && BusKept(c, d)
    ensures Reading(c) ==> Waiting(d)
    decreases Handlers(c), |c.code|, 0, 7
  {
    if c.flags.asyncMode then Asked(Unlock(c))
    else
      var a, d := Heard(env, c), Asked(c);
      if a.yes && a.now then ReadCallback(env, d, a.status, a.chunk).0 else d
  }

  /** The second result is the number of bytes to read in addition. */
  function ReadCallback(env: Env, c: Core, status: IoStatus, chunk: Bytes): (r: (Core, int))
    requires RunFine(c)
    ensures Goes(c, r.0) && BusKept(c, r.0)
    ensures r.1 != 0 ==> Handlers(r.0) == Handlers(c) && r.0.code == c.code
    ensures Reading(c) ==> if r.1 == 0 then Waiting(r.0) else Reading(r.0)
    ensures Waiting(c) && (c.flags.aborted || c.activeCommand == In || status == IoSuccess || status == IoEnd) ==> Waiting(r.0)
    decreases Handlers(c), |c.code|, if c.flags.asyncMode then |c.input.buffer| + |chunk| + 1 else 0, 6
  {
    if c.flags.aborted then (c, 0)
    else
      var d := c.(lastInputStatus := status);
      if !d.flags.acceptInput then (d, 0)
      else if status == IoNoReply then (NoReply(env, d), 0)
      else if status == IoFault then (Finish(env, d, Fault), 0)
      else AppendInput(env, d, chunk)
  }

  /** The chunk goes into the buffer and is parsed if an `in` command is active. */
  function AppendInput(env: Env, c: Core, chunk: Bytes): (r: (Core, int))
    requires RunFine(c)
    ensures Goes(c, r.0) && BusKept(c, r.0)
    ensures r.1 != 0 ==> Handlers(r.0) == Handlers(c) && r.0.code == c.code
    ensures Reading(c) ==> if r.1 == 0 then Waiting(r.0) else Reading(r.0)
    ensures Waiting(c) && c.flags.acceptInput ==> Waiting(r.0)
    decreases Handlers(c), |c.code|, if c.flags.asyncMode then |c.input.buffer| + |chunk| + 1 else 0, 5
  {
    var config, active, status := env.protocol.input, c.activeCommand == In, c.lastInputStatus;
    ReceiveIsSensible(config, c.input, active, status, chunk);
    TakeInput(env, Tell(c, Gained(chunk)), Receive(config, c.input, active, status, chunk), |c.input.buffer| + |chunk|)
  }

  /** evalIn would come back here with the same input and status if there is unparsed input. */
  function NoReply(env: Env, c: Core): (d: Core)
    requires RunFine(c)
    ensures Goes(c, d) && BusKept(c, d)
    ensures Reading(c) ==> Waiting(d)
    decreases Handlers(c), |c.code|, if c.flags.asyncMode then |c.input.buffer| + 1 else 0, 3
  {
    if !c.flags.asyncMode then Finish(env, Dropping(c, c.input.(buffer := [])), ReplyTimeout)
    else if c.input.unparsed then c.(diverged := true)
    else EvalIn(env, c)
  }

  /** What becomes of `size` bytes in the buffer. */
  function TakeInput(env: Env, c: Core, o: Outcome, size: nat): (r: (Core, int))
    requires RunFine(c) && Sensible(env.protocol.input, c.activeCommand == In, size, o)
    ensures Goes(c, r.0) && BusKept(c, r.0)
    ensures r.1 != 0 ==> r.0 == c.(input := r.0.input)
    ensures Reading(c) ==> if r.1 == 0 then Waiting(r.0) else Reading(r.0)
    ensures Waiting(c) && c.flags.acceptInput ==> Waiting(r.0)
    decreases Handlers(c), |c.code|, if c.flags.asyncMode then size + 1 else 0, 4
  {
    var d, max := c.(input := o.pending), env.protocol.input.maxInput;
    if o.Early? then (d, 0)
    else if o.More? then (d, if max > 0 then max - size else -1)
    else if !o.ended && c.flags.asyncMode then (EvalIn(env, Tell(d, Dropped)), 0)
    else (EvalLine(env, Tell(d, Parsed(o.text, c.lastInputStatus)), o.status), 0)
  }

  /** A line was taken out of the buffer and is matched. */
  function EvalLine(env: Env, c: Core, status: IoStatus): (d: Core)
    requires RunFine(c)
    ensures Goes(c, d) && BusKept(c, d)
    ensures Reading(c) ==> Waiting(d)
    decreases Handlers(c), |c.code|, if c.flags.asyncMode then Backlog(c) + 1 else 0, 3
  {
    var d := Asked(c);
    if status == IoTimeout then Finish(env, d, ReadTimeout)
    else if Heard(env, c).yes then Eval(env, d)
    else if c.flags.asyncMode then EvalIn(env, d)
    else Finish(env, d, ScanError)
  }

  // ---- event, exec ----

  /** An endless asynchronous wait for an event releases the bus. */
  function Attentive(c: Core): (d: Core)
    requires RunFine(c) && c.activeCommand.Event?
    ensures Goes(c, d) && BusKept(c, d) && d.flags == c.flags.(acceptEvent := true) && (Ready(c) ==> Waiting(d))
    ensures d.bus == c.bus.(owner := c.bus.owner && !(c.flags.asyncMode && c.activeCommand.endless))
    ensures Handlers(d) == Handlers(c) && d.code == c.code
  {
    Listening(Asked(if c.flags.asyncMode && c.activeCommand.endless then Unlock(c) else c), true)
  }

  function EvalEvent(env: Env, c: Core): (d: Core)
    requires RunFine(c) && c.activeCommand.Event?
    ensures Goes(c, d) && BusKept(c, d)
    ensures Ready(c) ==> Waiting(d)
    decreases Handlers(c), |c.code|, 0, 4
  {
    if Heard(env, c).now then EventCallback(env, Attentive(c), Heard(env, c).status) else Attentive(c)
  }

  function EventCallback(env: Env, c: Core, status: IoStatus): (d: Core)
    requires RunFine(c)
    ensures Goes(c, d) && BusKept(c, d)
    ensures Waiting(c) && (c.flags.acceptEvent && BusPending(c) ==> status == IoSuccess) ==> Waiting(d)
    decreases Handlers(c), |c.code|, 0, 3
  {
    if c.flags.aborted || !c.flags.acceptEvent then c
    else
      var d := Listening(c, false);
      if status == IoTimeout then Finish(env, d, ReplyTimeout)
      else if status == IoSuccess then Eval(env, d)
      else Finish(env, d, Fault)
  }

  function EvalExec(env: Env, c: Core): (d: Core)
    requires RunFine(c) && c.activeCommand == Exec
    ensures Goes(c, d) && BusKept(c, d)
    ensures Ready(c) ==> Waiting(d)
    decreases Handlers(c), |c.code|, 0, 3
  {
    if Heard(env, c).yes then Asked(Unlock(c)) else Finish(env, Asked(c), FormatError)
  }

  // ---- Calls from outside ----

  function ModeCode(p: Protocol, mode: StartMode): Option<Code> {
    if mode == StartInit then p.onInit
    else if mode == StartAsync && !p.asyncRead then None
    else p.commands
  }

  /** Every start clears the flags, also one that is refused. */
  function Cleared(env: Env, c: Core, mode: StartMode): (d: Core)
    requires RunFine(c)
    ensures Length(c.trace) < Length(d.trace) && RunFine(if ModeCode(env.protocol, mode).None? then d else d.(runningHandler := Success))
    ensures d.flags.initRun == (mode == StartInit && env.protocol.onInit.Some?)
    ensures (Lost(c) ==> Lost(d)) && (Sound(c) ==> if c.bus.owner then Lost(d) else Sound(d)) && !BusPending(d)
    ensures Waiting(c) && c.activeCommand == End ==> Waiting(d) && Ready(d)
  {
    var init := mode == StartInit && env.protocol.onInit.Some?;
    Tell(c, if ModeCode(env.protocol, mode).None? then Refused else Started(init)).(
      flags := Flags(init, mode == StartAsync && env.protocol.asyncRead, false, false, false), bus := NO_BUS)
  }

  function StartProtocol(env: Env, c: Core, mode: StartMode): (d: Core)
    requires RunFine(c)
    ensures RunFine(d) && Length(c.trace) < Length(d.trace)
    ensures (Lost(c) ==> Lost(d)) && (Sound(c) ==> if c.bus.owner then Lost(d) else Sound(d))
    ensures Waiting(c) && c.activeCommand == End ==> Waiting(d)
    ensures !env.protocol.asyncRead ==> !d.flags.asyncMode && (d.diverged ==> c.diverged)
  {
    var d, code := Cleared(env, c, mode), ModeCode(env.protocol, mode);
    if code.None? then d else Eval(env, d.(code := code.value, runningHandler := Success))
  }

  function TimerCallback(env: Env, c: Core): (d: Core)
    requires RunFine(c)
    ensures Goes(c, d) && BusKept(c, d)
    ensures Waiting(c) ==> Waiting(d)
  {
    if c.flags.aborted || !c.bus.waitPending then c else Eval(env, c.(bus := c.bus.(waitPending := false)))
  }

  /** The active command is done, or has failed. */
  function Completed(env: Env, c: Core, status: IoStatus): (d: Core)
    requires RunFine(c)
    ensures Goes(c, d) && BusKept(c, d)
    ensures Ready(c) ==> Waiting(d)
  {
    if status == IoSuccess then Eval(env, c) else Finish(env, c, Fault)
  }

  function ExecCallback(env: Env, c: Core, status: IoStatus): (d: Core)
    requires RunFine(c)
    ensures Goes(c, d) && BusKept(c, d)
    ensures Waiting(c) ==> Waiting(d)
  {
    if c.flags.aborted || c.activeCommand != Exec then c else Completed(env, c, status)
  }

  function ConnectCallback(env: Env, c: Core, status: IoStatus): (d: Core)
    requires RunFine(c)
    ensures RunFine(d) && Length(c.trace) <= Length(d.trace)
    ensures (Lost(c) ==> Lost(d)) && (Sound(c) ==> if StartsAsOwner(c, ConnectAnswer(status)) then Lost(d) else Sound(d))
    ensures Waiting(c) ==> Waiting(d)
    ensures !env.protocol.asyncRead && !c.flags.asyncMode ==> !d.flags.asyncMode && (d.diverged ==> c.diverged)
  {
    if c.flags.aborted then c
    else if c.activeCommand == End then StartProtocol(env, c, StartInit)
    else if c.activeCommand != Connect then c
    else Completed(env, c, status)
  }

  function Disconnected(env: Env, c: Core): (d: Core)
    requires RunFine(c)
    ensures Goes(c, d) && BusKept(c, d) && Ended(d, Offline)
    ensures Waiting(c) ==> Waiting(d)
  {
    Finish(env, Forgotten(c), Offline)
  }

  /** A disconnect that was not asked for ends the run as offline. */
  function DisconnectCallback(env: Env, c: Core, status: IoStatus): (d: Core)
    requires RunFine(c)
    ensures Goes(c, d) && BusKept(c, d)
    ensures Waiting(c) ==> Waiting(d)
    ensures !c.flags.aborted && c.activeCommand != Disconnect ==> Ended(d, Offline)
  {
    if c.flags.aborted then c
    else if c.activeCommand != Disconnect then Disconnected(env, c)
    else Completed(env, c, status)
  }

  /** One call of the client, the bus or the timer; there is no restriction on when it comes. */
  function Respond(env: Env, c: Core, call: Call): (d: Core)
    requires RunFine(c)
    ensures RunFine(d) && Length(c.trace) <= Length(d.trace)
    ensures (Lost(c) ==> Lost(d)) && (Sound(c) ==> if StartsAsOwner(c, call) then Lost(d) else Sound(d))
    ensures Waiting(c) && InTurn(c, call) ==> Waiting(d)
    ensures !env.protocol.asyncRead && !c.flags.asyncMode ==> !d.flags.asyncMode && (d.diverged ==> c.diverged)
  {
    match call
    case Start(mode) => StartProtocol(env, c, mode)
    case ConnectAnswer(status) => ConnectCallback(env, c, status)
    case _ => Answered(env, c, call)
  }

  /** The calls that cannot start a protocol. */
  function Answered(env: Env, c: Core, call: Call): (d: Core)
    requires RunFine(c) && !call.Start? && !call.ConnectAnswer?
    ensures Goes(c, d) && BusKept(c, d)
    ensures Waiting(c) && InTurn(c, call) ==> Waiting(d)
  {
    match call
    case LockAnswer(status) => LockCallback(env, c, status)
    case WriteAnswer(status) => WriteCallback(env, c, status)
    case ReadAnswer(status, chunk) => ReadCallback(env, c, status, chunk).0
    case EventAnswer(status) => EventCallback(env, c, status)
    case Timer => TimerCallback(env, c)
    case ExecAnswer(status) => ExecCallback(env, c, status)
    case DisconnectAnswer(status) => DisconnectCallback(env, c, status)
    case AbortRun => Finish(env, c, Abort)
  }

  function After(env: Env, c: Core, calls: seq<Call>): (d: Core)
    requires RunFine(c)
    ensures RunFine(d) && Length(c.trace) <= Length(d.trace)
    ensures !env.protocol.asyncRead && !c.flags.asyncMode ==> !d.flags.asyncMode && (d.diverged ==> c.diverged)
    decreases |calls|
  {
    if calls == [] then c else After(env, Respond(env, c, calls[0]), calls[1..])
  }
}
