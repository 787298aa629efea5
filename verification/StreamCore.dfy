/**
 StreamCore as it is written: one object whose callbacks and eval functions
 change flags, command index and input buffer step by step and call each other
 through the bus. Each method is proved to do what the function of the same
 purpose in `StreamMachine` does to the whole state.
 */
module StreamCore {
  import opened Basics
  import opened LineInput
  import opened StreamTrace
  import opened StreamState
  import opened StreamMachine

  class StreamCore {
    const env: Env
    var code: Code                      // what commandIndex points to
    var activeCommand: Command
    var runningHandler: Result
    var flags: Flags
    var bus: BusFlags
    var input: Pending
    var lastInputStatus: IoStatus
    var asked: nat
    var diverged: bool
    ghost var trace: Trace

    ghost function View(): Core reads this {
      Core(code, activeCommand, runningHandler, flags, bus, input, lastInputStatus, asked, diverged, trace)
    }

    ghost predicate Fine() reads this { RunFine(View()) }

    constructor (e: Env)
      ensures env == e && View() == INITIAL
    {
      env, code, activeCommand, runningHandler := e, [], End, Success;
      flags, bus := Flags(false, false, false, false, false), NO_BUS;
      input, lastInputStatus, asked, diverged, trace := NOTHING, IoSuccess, 0, false, Empty;
    }

    /** The next answer of the environment. */
    method Ask() returns (a: Answer)
      modifies this`asked
      ensures a == Heard(env, old(View())) && View() == Asked(old(View()))
    {
      a := env.world(asked);
      asked := asked + 1;
    }

    method DropInput(p: Pending)
      modifies this`input, this`trace
      ensures View() == Dropping(old(View()), p)
    {
      input := p;
      trace := Noted(trace, Dropped);
    }

    method BusUnlock()
      requires Fine()
      modifies this`bus, this`trace
      ensures View() == Unlock(old(View()))
    {
      if bus.owner {
        bus := bus.(owner := false);
        trace := Noted(trace, Unlocked);
      }
    }

    // ---- finishProtocol ----

    method FinishProtocol(result: Result)
      requires Fine()
      modifies this
      ensures View() == Finish(env, old(View()), result)
      decreases Handlers(View()), |code|, 0, 1
    {
      var status := if result == Success && (bus.lockPending || bus.writePending || bus.waitPending) then Fault else result;
      var first := SaveStatus(status);
      if first {
        HandleError(status);
      } else {
        // get original error status
        FinishHook(if status == Success then runningHandler else status);
      }
    }

    method SaveStatus(status: Result) returns (first: bool)
      requires Fine()
      modifies this`trace, this`activeCommand, this`runningHandler
      ensures View() == Record(old(View()), status) && first == (Handlers(old(View())) == 1)
    {
      first := runningHandler == Success && !flags.initRun;
      trace := Noted(trace, Failing(status));
      activeCommand := End;
      if first { runningHandler := status; }
    }

    method HandleError(status: Result)
      requires Fine() && activeCommand == End && !flags.initRun && !RunOf(trace).handled && runningHandler == status
      modifies this
      ensures View() == HandleFirst(env, old(View()), status)
      decreases if HasHandler(status) then 1 else 0, 0, 0, 0
    {
      var handler := LookForHandler(status);
      if handler.Some? {
        trace := Noted(trace, Handling);
        code := handler.value;
        EvalCommand();
      } else {
        FinishHook(status);
      }
    }

    method LookForHandler(status: Result) returns (handler: Option<Code>)
      modifies this`asked, this`flags, this`input, this`trace
      ensures (View(), handler) == FindHandler(env, old(View()), status)
      ensures status == WriteTimeout ==> handler == Some(env.protocol.onWriteTimeout)
      ensures status == ReplyTimeout ==> handler == Some(env.protocol.onReplyTimeout)
      ensures status == ReadTimeout ==> handler == Some(env.protocol.onReadTimeout)
      ensures status == ScanError ==>
                var code := env.protocol.onMismatch;
                if code == [] || code[0] != In then handler == Some(code)
                else handler == if old(Heard(env, View())).yes then Some(code[1..]) else None
      ensures !HasHandler(status) ==> handler == None
      ensures !HasHandler(status) && status != Success ==> input == NOTHING && (flags.aborted <==> old(flags.aborted) || status == Abort)
    {
      var p := env.protocol;
      handler := None;
      if status == WriteTimeout {
        handler := Some(p.onWriteTimeout);
      } else if status == ReplyTimeout {
        handler := Some(p.onReplyTimeout);
      } else if status == ReadTimeout {
        handler := Some(p.onReadTimeout);
      } else if status == ScanError {
        handler := Some(p.onMismatch);
        if p.onMismatch != [] && p.onMismatch[0] == In {
          // the handler parses the mismatching line again
          var a := Ask();
          handler := if a.yes then Some(p.onMismatch[1..]) else None;
        }
      } else if status != Success {
        if status == Abort { flags := flags.(aborted := true); }
        DropInput(NOTHING);
      }
    }

    method FinishHook(status: Result)
      requires Fine() && activeCommand == End
      requires !flags.initRun && RunOf(trace).failed ==> status != Success
      modifies this
      ensures View() == Report(old(View()), status)
    {
      BusUnlock();
      flags := flags.(acceptInput := false, acceptEvent := false);
      trace := Noted(trace, Finished(status));
    }

    // ---- evalCommand ----

    method EvalCommand()
      requires Fine()
      modifies this
      ensures View() == Eval(env, old(View()))
      decreases Handlers(View()), |code|, 0, 2
    {
      if bus.lockPending || bus.writePending || bus.waitPending { return; }
      if code == [] {
        activeCommand := End;
        FinishProtocol(Success);
      } else {
        trace := Noted(trace, Began(code[0]));
        activeCommand := code[0];
        code := code[1..];
        EvalActiveCommand();
      }
    }

    method EvalActiveCommand()
      requires Fine() && !BusPending(View())
      modifies this
      ensures View() == EvalActive(env, old(View()))
      decreases Handlers(View()), |code|, Backlog(View()), 11
    {
      match activeCommand
      case Out => EvalOut();
      case In => EvalIn();
      case Wait => bus := bus.(waitPending := true);
      case Event(_) => EvalEvent();
      case Exec => EvalExec();
      case Connect => var _ := Ask();
      case Disconnect => EvalDisconnect();
      case End => FinishProtocol(Success);
      case Illegal =>
        bus := BusFlags(bus.owner, false, false, false);
        FinishProtocol(Fault);
    }

    method EvalDisconnect()
      requires Fine() && !BusPending(View()) && activeCommand == Disconnect
      modifies this
      ensures View() == EvalActive(env, old(View()))
      decreases Handlers(View()), |code|, 0, 3
    {
      var a := Ask();
      if !a.yes { FinishProtocol(Fault); }
    }

    // ---- out ----

    method EvalOut()
      requires Fine() && !BusPending(View()) && activeCommand == Out
      modifies this
      ensures View() == StreamMachine.EvalOut(env, old(View()))
      decreases Handlers(View()), |code|, 0, 10
    {
      var formatted := FormatOutput();
      if formatted {
        PrepareForEarly();
        SendOutput();
      } else {
        FinishProtocol(FormatError);
      }
    }

    method SendOutput()
      requires Fine() && !BusPending(View()) && activeCommand == Out
      modifies this
      ensures View() == Send(env, old(View()))
      decreases Handlers(View()), |code|, 0, 9
    {
      if bus.owner {
        bus := bus.(writePending := true);
        var _ := BusWriteRequest();
      } else {
        AskForTheBus();
      }
    }

    method FormatOutput() returns (ok: bool)
      modifies this`input, this`asked, this`trace
      ensures ok == Heard(env, old(View())).yes && View() == Emptied(old(View()))
    {
      DropInput(NOTHING);
      var a := Ask();
      ok := a.yes;
    }

    method PrepareForEarly()
      modifies this`flags
      ensures View() == Prepared(old(View()))
    {
      if code != [] && code[0] == In { flags := flags.(acceptInput := true); }
      if code != [] && code[0].Event? { flags := flags.(acceptEvent := true); }
    }

    method AskForTheBus()
      requires Fine() && !BusPending(View()) && activeCommand == Out && !bus.owner
      modifies this
      ensures View() == AskForBus(env, old(View()))
      decreases Handlers(View()), |code|, 0, 8
    {
      bus := bus.(lockPending := true);
      var accepted := BusLockRequest();
      if !accepted {
        bus := bus.(lockPending := false);
        FinishProtocol(Offline);
      }
    }

    method BusLockRequest() returns (accepted: bool)
      requires Fine()
      modifies this
      ensures (View(), accepted) == LockRequest(env, old(View()))
      decreases Handlers(View()), |code|, 0, 7
    {
      var a := Ask();
      accepted := a.yes;
      if a.yes && a.now { LockCallback(a.status); }
    }

    method LockCallback(status: IoStatus)
      requires Fine()
      modifies this
      ensures View() == StreamMachine.LockCallback(env, old(View()), status)
      decreases Handlers(View()), |code|, 0, 6
    {
      if flags.aborted || !bus.lockPending { return; }
      bus := bus.(lockPending := false);
      if status == IoSuccess {
        bus := bus.(owner := true);
        trace := Noted(trace, Locked);
        WriteOutput();
      } else {
        FinishProtocol(if status == IoTimeout || status == IoFault then LockTimeout else Fault);
      }
    }

    method WriteOutput()
      requires Fine() && bus.owner
      modifies this
      ensures View() == WriteFirst(env, old(View()))
      decreases Handlers(View()), |code|, 0, 5
    {
      bus := bus.(writePending := true);
      var accepted := BusWriteRequest();
      if !accepted { FinishProtocol(Fault); }
    }

    method BusWriteRequest() returns (accepted: bool)
      requires Fine() && bus.owner
      modifies this
      ensures (View(), accepted) == WriteRequest(env, old(View()))
      decreases Handlers(View()), |code|, 0, 4
    {
      trace := Noted(trace, Written);
      var a := Ask();
      accepted := a.yes;
      if a.yes && a.now { WriteCallback(a.status); }
    }

    method WriteCallback(status: IoStatus)
      requires Fine()
      modifies this
      ensures View() == StreamMachine.WriteCallback(env, old(View()), status)
      decreases Handlers(View()), |code|, 0, 3
    {
      if flags.aborted || !bus.writePending { return; }
      bus := bus.(writePending := false);
      if status == IoSuccess { EvalCommand(); } else { FinishProtocol(WriteTimeout); }
    }

    // ---- in ----

    method EvalIn()
      requires Fine()
      modifies this
      ensures View() == StreamMachine.EvalIn(env, old(View()))
      decreases Handlers(View()), |code|, Backlog(View()), 8
    {
      flags := flags.(acceptInput := true);
      if input.unparsed {
        var more := ReadCallback(lastInputStatus, []);
        if more == 0 { return; }
      }
      BusReadRequest();
    }

    method BusReadRequest()
      requires Fine()
      modifies this
      ensures View() == AskForInput(env, old(View()))
      decreases Handlers(View()), |code|, 0, 7
    {
      if flags.asyncMode {
        BusUnlock();
        var _ := Ask();
      } else {
        var a := Ask();
        if a.yes && a.now { var _ := ReadCallback(a.status, a.chunk); }
      }
    }

    method ReadCallback(status: IoStatus, chunk: Bytes) returns (more: int)
      requires Fine()
      modifies this
      ensures (View(), more) == StreamMachine.ReadCallback(env, old(View()), status, chunk)
      decreases Handlers(View()), |code|, if flags.asyncMode then |input.buffer| + |chunk| + 1 else 0, 6
    {
      more := 0;
      if flags.aborted { return; }
      lastInputStatus := status;
      if !flags.acceptInput { return; }
      if status == IoNoReply {
        MissingReply();
      } else if status == IoFault {
        FinishProtocol(Fault);
      } else {
        more := AppendChunk(chunk);
      }
    }

    method AppendChunk(chunk: Bytes) returns (more: int)
      requires Fine()
      modifies this
      ensures (View(), more) == AppendInput(env, old(View()), chunk)
      decreases Handlers(View()), |code|, if flags.asyncMode then |input.buffer| + |chunk| + 1 else 0, 5
    {
      var config, active := env.protocol.input, activeCommand == In;
      ReceiveIsSensible(config, input, active, lastInputStatus, chunk);
      trace := Noted(trace, Gained(chunk));
      more := ParseInput(Receive(config, input, active, lastInputStatus, chunk), |input.buffer| + |chunk|);
    }

    method MissingReply()
      requires Fine()
      modifies this
      ensures View() == NoReply(env, old(View()))
      decreases Handlers(View()), |code|, if flags.asyncMode then |input.buffer| + 1 else 0, 3
    {
      if !flags.asyncMode {
        DropInput(input.(buffer := []));
        FinishProtocol(ReplyTimeout);
      } else if input.unparsed {
        diverged := true;
      } else {
        EvalIn();
      }
    }

    method ParseInput(o: Outcome, size: nat) returns (more: int)
      requires Fine() && Sensible(env.protocol.input, activeCommand == In, size, o)
      modifies this
      ensures (View(), more) == TakeInput(env, old(View()), o, size)
      decreases Handlers(View()), |code|, if flags.asyncMode then size + 1 else 0, 4
    {
      input := o.pending;
      more := 0;
      if o.More? {
        var max := env.protocol.input.maxInput;
        more := if max > 0 then max - size else -1;
      } else if o.Line? {
        if !o.ended && flags.asyncMode {
          trace := Noted(trace, Dropped);
          EvalIn();
        } else {
          trace := Noted(trace, Parsed(o.text, lastInputStatus));
          MatchLine(o.status);
        }
      }
    }

    method MatchLine(status: IoStatus)
      requires Fine()
      modifies this
      ensures View() == EvalLine(env, old(View()), status)
      decreases Handlers(View()), |code|, if flags.asyncMode then Backlog(View()) + 1 else 0, 3
    {
      var a := Ask();
      if status == IoTimeout {
        FinishProtocol(ReadTimeout);
      } else if a.yes {
        EvalCommand();
      } else if flags.asyncMode {
        EvalIn();
      } else {
        FinishProtocol(ScanError);
      }
    }

    // ---- event, exec ----

    method EvalEvent()
      requires Fine() && activeCommand.Event?
      modifies this
      ensures View() == StreamMachine.EvalEvent(env, old(View()))
      decreases Handlers(View()), |code|, 0, 4
    {
      var a := AcceptEvent();
      if a.now { EventCallback(a.status); }
    }

    method AcceptEvent() returns (a: Answer)
      requires Fine() && activeCommand.Event?
      modifies this
      ensures a == Heard(env, old(View())) && View() == Attentive(old(View()))
    {
      if flags.asyncMode && activeCommand.endless { BusUnlock(); }
      flags := flags.(acceptEvent := true);
      a := Ask();
    }

    method EventCallback(status: IoStatus)
      requires Fine()
      modifies this
      ensures View() == StreamMachine.EventCallback(env, old(View()), status)
      decreases Handlers(View()), |code|, 0, 3
    {
      if flags.aborted || !flags.acceptEvent { return; }
      flags := flags.(acceptEvent := false);
      if status == IoTimeout {
        FinishProtocol(ReplyTimeout);
      } else if status == IoSuccess {
        EvalCommand();
      } else {
        FinishProtocol(Fault);
      }
    }

    method EvalExec()
      requires Fine() && activeCommand == Exec
      modifies this
      ensures View() == StreamMachine.EvalExec(env, old(View()))
      decreases Handlers(View()), |code|, 0, 3
    {
      var a := Ask();
      if a.yes { BusUnlock(); } else { FinishProtocol(FormatError); }
    }

    // ---- Calls from outside ----

    method StartProtocol(mode: StartMode)
      requires Fine()
      modifies this
      ensures View() == StreamMachine.StartProtocol(env, old(View()), mode)
    {
      var p := env.protocol;
      var init := mode == StartInit && p.onInit.Some?;
      var start := ModeCode(p, mode);
      trace := Noted(trace, if start.None? then Refused else Started(init));
      flags, bus := Flags(init, mode == StartAsync && p.asyncRead, false, false, false), NO_BUS;
      if start.Some? {
        code, runningHandler := start.value, Success;
        EvalCommand();
      }
    }

    method TimerCallback()
      requires Fine()
      modifies this
      ensures View() == StreamMachine.TimerCallback(env, old(View()))
    {
      if flags.aborted || !bus.waitPending { return; }
      bus := bus.(waitPending := false);
      EvalCommand();
    }

    method ExecCallback(status: IoStatus)
      requires Fine()
      modifies this
      ensures View() == StreamMachine.ExecCallback(env, old(View()), status)
    {
      if flags.aborted || activeCommand != Exec { return; }
      if status == IoSuccess { EvalCommand(); } else { FinishProtocol(Fault); }
    }

    method ConnectCallback(status: IoStatus)
      requires Fine()
      modifies this
      ensures View() == StreamMachine.ConnectCallback(env, old(View()), status)
    {
      if flags.aborted { return; }
      if activeCommand == End {
        StartProtocol(StartInit);
      } else if activeCommand == Connect {
        if status == IoSuccess { EvalCommand(); } else { FinishProtocol(Fault); }
      }
    }

    method DisconnectCallback(status: IoStatus)
      requires Fine()
      modifies this
      ensures View() == StreamMachine.DisconnectCallback(env, old(View()), status)
    {
      if flags.aborted { return; }
      if activeCommand != Disconnect {
        bus := BusFlags(bus.owner, false, false, false);
        FinishProtocol(Offline);
      } else if status == IoSuccess {
        EvalCommand();
      } else {
        FinishProtocol(Fault);
      }
    }
  }

  /** Any sequence of calls brings a new object where the step system says. */
  method Drive(env: Env, calls: seq<Call>) returns (core: StreamCore)
    ensures core.env == env && core.View() == After(env, INITIAL, calls)
  {
    core := new StreamCore(env);
    var k := 0;
    while k < |calls|
      invariant k <= |calls| && fresh(core) && core.env == env && core.Fine()
      invariant After(env, core.View(), calls[k..]) == After(env, INITIAL, calls)
    {
      assert calls[k..][1..] == calls[k + 1..];
      Perform(core, calls[k]);
      k := k + 1;
    }
  }

  method Perform(core: StreamCore, call: Call)
    requires core.Fine()
    modifies core
    ensures core.View() == Respond(core.env, old(core.View()), call)
  {
    match call
    case Start(mode) => core.StartProtocol(mode);
    case ConnectAnswer(status) => core.ConnectCallback(status);
    case _ => PerformAnswer(core, call);
  }

  method PerformAnswer(core: StreamCore, call: Call)
    requires core.Fine() && !call.Start? && !call.ConnectAnswer?
    modifies core
    ensures core.View() == Answered(core.env, old(core.View()), call)
  {
    match call
    case LockAnswer(status) => core.LockCallback(status);
    case WriteAnswer(status) => core.WriteCallback(status);
    case ReadAnswer(status, chunk) => var _ := core.ReadCallback(status, chunk);
    case EventAnswer(status) => core.EventCallback(status);
    case Timer => core.TimerCallback();
    case ExecAnswer(status) => core.ExecCallback(status);
    case DisconnectAnswer(status) => core.DisconnectCallback(status);
    case AbortRun => core.FinishProtocol(Abort);
  }
}
