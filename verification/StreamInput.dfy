/**
 The input lines of whole runs of StreamCore: for every protocol, every bus and
 every sequence of calls, the lines that `in` commands match are the lines of
 the bytes received, whatever the chunks were.
 */
module StreamInput {
  import opened Basics
  import opened LineInput
  import opened StreamTrace
  import opened StreamState
  import opened StreamMachine

  // ---- An automaton for lines ----

  /** The bytes still in the buffer. A line is the first one of them; only if
      there is none and the input has ended, or timed out, it is all of them. */
  function RestAfter(config: Config, rest: Option<Bytes>, n: Note): Option<Bytes> {
    if rest.None? then None else
    match n
    case Gained(bytes) => Some(rest.value + bytes)
    case Dropped => Some([])
    case Parsed(line, end) =>
      var k := LineLength(config, rest.value);
      if k >= 0 then (if line == rest.value[..k] then Some(Rest(config, rest.value)) else None)
      else if line == rest.value && (end == IoEnd || end == IoTimeout) then Some([])
      else None
    case _ => rest
  }

  function RestOf(config: Config, t: Trace): Option<Bytes> {
    if t.Empty? then Some([]) else RestAfter(config, RestOf(config, t.before), t.note)
  }

  function WatchInput(config: Config, log: seq<Note>): Option<Bytes> {
    if log == [] then Some([]) else RestAfter(config, WatchInput(config, log[..|log| - 1]), log[|log| - 1])
  }

  lemma {:induction false} InputIsWatched(config: Config, t: Trace)
    ensures WatchInput(config, Log(t)) == RestOf(config, t)
  {
    if t.Noted? {
      InputIsWatched(config, t.before);
      assert Log(t)[..|Log(t)| - 1] == Log(t.before);
    }
  }

  // ---- What it accepts ----

  function Arrived(log: seq<Note>): Bytes {
    if log == [] then []
    else Arrived(log[..|log| - 1]) + match log[|log| - 1] case Gained(bytes) => bytes case _ => []
  }

  function Taken(log: seq<Note>): seq<Bytes> {
    if log == [] then []
    else Taken(log[..|log| - 1]) + match log[|log| - 1] case Parsed(line, _) => [line] case _ => []
  }

  /** No input was dropped, and every line ended by itself. */
  predicate Unbroken(log: seq<Note>) {
    forall i | 0 <= i < |log| :: log[i] != Dropped && (log[i].Parsed? ==> log[i].end == IoSuccess)
  }

  lemma {:induction false} RestPrefix(config: Config, log: seq<Note>, i: nat)
    requires i <= |log| && WatchInput(config, log).Some?
    ensures WatchInput(config, log[..i]).Some?
    decreases |log|
  {
    if i < |log| {
      assert log[..|log| - 1][..i] == log[..i];
      RestPrefix(config, log[..|log| - 1], i);
    } else {
      assert log[..i] == log;
    }
  }

  /** From an empty buffer on, lines are taken from the bytes that arrive, in order. */
  lemma {:induction false} StretchIsTaken(config: Config, log: seq<Note>, i: nat, j: nat)
    requires i <= j <= |log| && WatchInput(config, log).Some?
    requires WatchInput(config, log[..i]) == Some([]) && Unbroken(log[i..j])
    ensures WatchInput(config, log[..j]).Some?
    ensures TakenFrom(config, Taken(log[i..j]), WatchInput(config, log[..j]).value, Arrived(log[i..j]))
    decreases j - i
  {
    RestPrefix(config, log, j);
    if i < j {
      var before, n := log[i..j - 1], log[j - 1];
      assert log[i..j] == before + [n] && log[..j] == log[..j - 1] + [n];
      UnbrokenSplits(before, n);
      StretchIsTaken(config, log, i, j - 1);
      LastNote(config, before, n);
      LastNote(config, log[..j - 1], n);
      NoteTakes(config, Taken(before), WatchInput(config, log[..j - 1]).value, Arrived(before), n);
    }
  }

  lemma UnbrokenSplits(log: seq<Note>, n: Note)
    requires Unbroken(log + [n])
    ensures Unbroken(log) && n != Dropped && (n.Parsed? ==> n.end == IoSuccess)
  {
    assert (log + [n])[|log|] == n && forall k | 0 <= k < |log| :: (log + [n])[k] == log[k];
  }

  lemma LastNote(config: Config, log: seq<Note>, n: Note)
    ensures WatchInput(config, log + [n]) == RestAfter(config, WatchInput(config, log), n)
    ensures Arrived(log + [n]) == Arrived(log) + match n case Gained(bytes) => bytes case _ => []
    ensures Taken(log + [n]) == Taken(log) + match n case Parsed(line, _) => [line] case _ => []
  {
    assert (log + [n])[..|log|] == log;
  }

  lemma NoteTakes(config: Config, lines: seq<Bytes>, rest: Bytes, stream: Bytes, n: Note)
    requires TakenFrom(config, lines, rest, stream) && RestAfter(config, Some(rest), n).Some?
    requires n != Dropped && (n.Parsed? ==> n.end == IoSuccess)
    ensures TakenFrom(config, lines + (match n case Parsed(line, _) => [line] case _ => []),
                      RestAfter(config, Some(rest), n).value,
                      stream + (match n case Gained(bytes) => bytes case _ => []))
  {
    assert stream + [] == stream && lines + [] == lines;
    if n.Gained? { LinesExtend(config, lines, rest, stream, n.bytes); }
    if n.Parsed? { TakeOneMore(config, lines, rest, stream); }
  }

  /** Wherever the buffer was empty, and as long as nothing is dropped or cut
      off, the lines taken are the first lines of all bytes that arrived since,
      and lines, terminators and buffer are these bytes. */
  ghost predicate LineDiscipline(config: Config, log: seq<Note>)
    requires OneRule(config)
  {
    forall i, j | 0 <= i <= j <= |log| && WatchInput(config, log[..i]) == Some([]) && Unbroken(log[i..j]) ::
      LinesOf(config, Taken(log[i..j]), WatchInput(config, log[..j]), Arrived(log[i..j]))
  }

  predicate LinesOf(config: Config, lines: seq<Bytes>, rest: Option<Bytes>, stream: Bytes)
    requires OneRule(config)
  {
    && rest.Some?
    && lines == Prefix(Lines(config, stream), |lines|)
    && (LineLength(config, rest.value) == -1 ==> lines == Lines(config, stream))
    && Joined(lines, config.terminator) + rest.value == stream
  }

  lemma LinesTakenWell(config: Config, log: seq<Note>)
    requires OneRule(config) && WatchInput(config, log).Some?
    ensures LineDiscipline(config, log)
  {
    forall i, j | 0 <= i <= j <= |log| && WatchInput(config, log[..i]) == Some([]) && Unbroken(log[i..j])
      ensures LinesOf(config, Taken(log[i..j]), WatchInput(config, log[..j]), Arrived(log[i..j]))
    {
      StretchIsTaken(config, log, i, j);
      TakenIsLines(config, Taken(log[i..j]), WatchInput(config, log[..j]).value, Arrived(log[i..j]));
    }
  }

  lemma TakenIsLines(config: Config, lines: seq<Bytes>, rest: Bytes, stream: Bytes)
    requires OneRule(config) && TakenFrom(config, lines, rest, stream)
    ensures LinesOf(config, lines, Some(rest), stream)
  {
    TakenLines(config, lines, rest, stream);
    TakenBytes(config, lines, rest, stream);
  }

  // ---- One chunk, with any status that brings input ----

  predicate BringsInput(s: IoStatus) { s == IoSuccess || s == IoEnd || s == IoTimeout }

  /** What becomes of all bytes in the buffer. A timeout is an end if there is a
      line, or no rule that ends one; otherwise the line is incomplete. */
  predicate TakesFrom(config: Config, b: Bytes, active: bool, status: IoStatus, o: Outcome) {
    if !active then o.Early? && o.pending.buffer == b && (b != [] ==> o.pending.unparsed)
    else
      var k := LineLength(config, b);
      if k >= 0 then
        && o.Line? && o.ended && o.text == b[..k] && o.pending == Pending(Rest(config, b), Rest(config, b) != [])
        && o.status == (if status == IoTimeout then IoEnd else status)
      else if status == IoSuccess then o.More? && o.pending.buffer == b
      else
        var late := status == IoTimeout && (config.terminator != [] || config.maxInput > 0);
        o.Line? && o.text == b && o.pending == NOTHING && o.ended == !late && o.status == if late then IoTimeout else IoEnd
  }

  lemma ReceiveTakes(config: Config, p: Pending, active: bool, status: IoStatus, chunk: Bytes)
    requires OneRule(config) && BringsInput(status) && (p.unparsed || LineLength(config, p.buffer) == -1)
    ensures TakesFrom(config, p.buffer + chunk, active, status, Receive(config, p, active, status, chunk))
  {
    if config.terminator != [] && !p.unparsed {
      FindLeast(p.buffer, config.terminator, 0);
      SearchStartIsEnough(p.buffer, chunk, config.terminator);
    }
  }

  // ---- What every function keeps ----

  /** The buffer is what the trace says, and a line in it is marked as unparsed. */
  predicate InputFine(config: Config, c: Core) {
    RestOf(config, c.trace) == Some(c.input.buffer) && (c.input.unparsed || LineLength(config, c.input.buffer) == -1)
  }

  /** An `in` command that waits for input has no line in the buffer. */
  predicate Settled(config: Config, c: Core) {
    && InputFine(config, c)
    && (c.flags.aborted ==> c.activeCommand == End)
    && (c.activeCommand == In && c.flags.acceptInput && !BusPending(c) && !c.diverged ==>
          LineLength(config, c.input.buffer) == -1)
  }

  predicate Going(env: Env, c: Core) {
    RunFine(c) && OneRule(env.protocol.input) && InputFine(env.protocol.input, c) && !c.flags.aborted
  }

  /** More bytes are only asked for if there is no line in the buffer: as many as
      are left up to maxInput, or an unknown number. */
  predicate StillWants(env: Env, r: (Core, int)) {
    && Settled(env.protocol.input, r.0)
    && (r.1 != 0 ==>
          && LineLength(env.protocol.input, r.0.input.buffer) == -1 && !r.0.flags.aborted
          && r.1 == if env.protocol.input.maxInput > 0 then env.protocol.input.maxInput - |r.0.input.buffer| else -1)
  }

  /** Just that many bytes complete a line of fixed length. */
  lemma AskedBytesComplete(config: Config, b: Bytes, chunk: Bytes)
    requires config.terminator == [] && config.maxInput > 0 && LineLength(config, b) == -1
    ensures LineLength(config, b + chunk) == if |chunk| >= config.maxInput - |b| then config.maxInput else -1
  {
  }

  lemma FinishInput(env: Env, c: Core, result: Result)
    requires RunFine(c) && OneRule(env.protocol.input) && InputFine(env.protocol.input, c)
    requires c.flags.aborted ==> result == Abort
    ensures Settled(env.protocol.input, Finish(env, c, result))
    decreases Handlers(c), |c.code|, 0, 1
  {
    var status := FinishStatus(c, result);
    var d := Record(c, status);
    if Handlers(c) == 0 {
      ReportInput(env.protocol.input, d, if status == Success then c.runningHandler else status);
    } else {
      HandleInput(env, d, status);
    }
  }

  lemma ReportInput(config: Config, c: Core, status: Result)
    requires RunFine(c) && c.activeCommand == End && InputFine(config, c)
    requires !c.flags.initRun && RunOf(c.trace).failed ==> status != Success
    ensures Settled(config, Report(c, status))
  {
  }

  lemma HandleInput(env: Env, c: Core, status: Result)
    requires RunFine(c) && OneRule(env.protocol.input) && InputFine(env.protocol.input, c)
    requires c.activeCommand == End && !c.flags.initRun && !RunOf(c.trace).handled && c.runningHandler == status
    requires c.flags.aborted ==> status == Abort
    ensures Settled(env.protocol.input, HandleFirst(env, c, status))
    decreases if HasHandler(status) then 1 else 0, 0, 0, 0
  {
    var (d, handler) := FindHandler(env, c, status);
    FindKeeps(env, c, status);
    if handler.Some? {
      EvalInput(env, Tell(d, Handling).(code := handler.value));
    } else {
      ReportInput(env.protocol.input, d, status);
    }
  }

  lemma FindKeeps(env: Env, c: Core, status: Result)
    requires InputFine(env.protocol.input, c)
    ensures InputFine(env.protocol.input, FindHandler(env, c, status).0)
  {
    EmptyHasNoLine(env.protocol.input);
  }

  lemma EmptyHasNoLine(config: Config)
    ensures LineLength(config, []) == -1
  {
  }

  lemma EvalInput(env: Env, c: Core)
    requires Going(env, c)
    ensures Settled(env.protocol.input, Eval(env, c))
    decreases Handlers(c), |c.code|, 0, 2
  {
    if !BusPending(c) {
      if c.code == [] {
        FinishInput(env, c.(activeCommand := End), Success);
      } else {
        EvalActiveInput(env, Begun(c));
      }
    }
  }

  lemma EvalActiveInput(env: Env, c: Core)
    requires Going(env, c) && !BusPending(c)
    ensures Settled(env.protocol.input, EvalActive(env, c))
    decreases Handlers(c), |c.code|, Backlog(c), 11
  {
    match c.activeCommand
    case Out => EvalOutInput(env, c);
    case In => EvalInInput(env, c);
    case Wait =>
    case Event(_) => EvalEventInput(env, c);
    case Exec => EvalExecInput(env, c);
    case Connect =>
    case Disconnect => FinishInput(env, Asked(c), Fault);
    case End => FinishInput(env, c, Success);
    case Illegal => FinishInput(env, Forgotten(c), Fault);
  }

  lemma EvalExecInput(env: Env, c: Core)
    requires Going(env, c) && c.activeCommand == Exec
    ensures Settled(env.protocol.input, StreamMachine.EvalExec(env, c))
    decreases Handlers(c), |c.code|, 0, 3
  {
    if !Heard(env, c).yes { FinishInput(env, Asked(c), FormatError); }
  }

  // ---- out ----

  lemma EvalOutInput(env: Env, c: Core)
    requires Going(env, c) && !BusPending(c) && c.activeCommand == Out
    ensures Settled(env.protocol.input, StreamMachine.EvalOut(env, c))
    decreases Handlers(c), |c.code|, 0, 10
  {
    if Heard(env, c).yes { SendInput(env, Prepared(Emptied(c))); } else { FinishInput(env, Emptied(c), FormatError); }
  }

  lemma SendInput(env: Env, c: Core)
    requires Going(env, c) && !BusPending(c) && c.activeCommand == Out
    ensures Settled(env.protocol.input, Send(env, c))
    decreases Handlers(c), |c.code|, 0, 9
  {
    if c.bus.owner {
      WriteRequestInput(env, Writing(c));
    } else {
      AskForBusInput(env, c);
    }
  }

  lemma AskForBusInput(env: Env, c: Core)
    requires Going(env, c) && !BusPending(c) && c.activeCommand == Out && !c.bus.owner
    ensures Settled(env.protocol.input, AskForBus(env, c))
    decreases Handlers(c), |c.code|, 0, 8
  {
    var l := Locking(c, true);
    LockRequestInput(env, l);
    var (d, accepted) := LockRequest(env, l);
    if !accepted { FinishInput(env, Locking(d, false), Offline); }
  }

  lemma LockRequestInput(env: Env, c: Core)
    requires RunFine(c) && OneRule(env.protocol.input) && Settled(env.protocol.input, c)
    ensures Settled(env.protocol.input, LockRequest(env, c).0)
    decreases Handlers(c), |c.code|, 0, 7
  {
    LockInput(env, Asked(c), Heard(env, c).status);
  }

  lemma LockInput(env: Env, c: Core, status: IoStatus)
    requires RunFine(c) && OneRule(env.protocol.input) && Settled(env.protocol.input, c)
    ensures Settled(env.protocol.input, StreamMachine.LockCallback(env, c, status))
    decreases Handlers(c), |c.code|, 0, 6
  {
    if !c.flags.aborted && c.bus.lockPending {
      if status == IoSuccess {
        WriteFirstInput(env, Owning(c));
      } else {
        FinishInput(env, Locking(c, false), if status == IoTimeout || status == IoFault then LockTimeout else Fault);
      }
    }
  }

  lemma WriteFirstInput(env: Env, c: Core)
    requires Going(env, c) && c.bus.owner
    ensures Settled(env.protocol.input, WriteFirst(env, c))
    decreases Handlers(c), |c.code|, 0, 5
  {
    var d := Writing(c);
    WriteRequestInput(env, d);
    FinishInput(env, Asked(Tell(d, Written)), Fault);
  }

  lemma WriteRequestInput(env: Env, c: Core)
    requires Going(env, c) && c.bus.owner && c.bus.writePending
    ensures Settled(env.protocol.input, WriteRequest(env, c).0)
    decreases Handlers(c), |c.code|, 0, 4
  {
    WriteInput(env, Asked(Tell(c, Written)), Heard(env, c).status);
  }

  lemma WriteInput(env: Env, c: Core, status: IoStatus)
    requires RunFine(c) && OneRule(env.protocol.input) && Settled(env.protocol.input, c)
    ensures Settled(env.protocol.input, StreamMachine.WriteCallback(env, c, status))
    decreases Handlers(c), |c.code|, 0, 3
  {
    if !c.flags.aborted && c.bus.writePending {
      var d := c.(bus := c.bus.(writePending := false));
      if status == IoSuccess { EvalInput(env, d); } else { FinishInput(env, d, WriteTimeout); }
    }
  }

  // ---- in ----

  lemma EvalInInput(env: Env, c: Core)
    requires Going(env, c)
    ensures Settled(env.protocol.input, StreamMachine.EvalIn(env, c))
    decreases Handlers(c), |c.code|, Backlog(c), 8
  {
    var d := c.(flags := c.flags.(acceptInput := true));
    if d.input.unparsed {
      ReadInput(env, d, d.lastInputStatus, []);
      var (e, more) := ReadCallback(env, d, d.lastInputStatus, []);
      if more != 0 { AskInput(env, e); }
    } else {
      AskInput(env, d);
    }
  }

  lemma AskInput(env: Env, c: Core)
    requires Going(env, c) && LineLength(env.protocol.input, c.input.buffer) == -1
    ensures Settled(env.protocol.input, AskForInput(env, c))
    decreases Handlers(c), |c.code|, 0, 7
  {
    var a := Heard(env, c);
    if !c.flags.asyncMode && a.yes && a.now { ReadInput(env, Asked(c), a.status, a.chunk); }
  }

  lemma ReadInput(env: Env, c: Core, status: IoStatus, chunk: Bytes)
    requires Going(env, c)
    ensures StillWants(env, ReadCallback(env, c, status, chunk))
    decreases Handlers(c), |c.code|, if c.flags.asyncMode then |c.input.buffer| + |chunk| + 1 else 0, 6
  {
    var d := c.(lastInputStatus := status);
    if d.flags.acceptInput {
      if status == IoNoReply {
        NoReplyInput(env, d);
      } else if status == IoFault {
        FinishInput(env, d, Fault);
      } else {
        AppendKeeps(env, d, chunk);
      }
    }
  }

  lemma AppendKeeps(env: Env, c: Core, chunk: Bytes)
    requires Going(env, c) && BringsInput(c.lastInputStatus)
    ensures StillWants(env, AppendInput(env, c, chunk))
    decreases Handlers(c), |c.code|, if c.flags.asyncMode then |c.input.buffer| + |chunk| + 1 else 0, 5
  {
    var config, active, status := env.protocol.input, c.activeCommand == In, c.lastInputStatus;
    ReceiveIsSensible(config, c.input, active, status, chunk);
    ReceiveTakes(config, c.input, active, status, chunk);
    TakeInputInput(env, Tell(c, Gained(chunk)), Receive(config, c.input, active, status, chunk), c.input.buffer + chunk);
  }

  lemma NoReplyInput(env: Env, c: Core)
    requires Going(env, c)
    ensures Settled(env.protocol.input, NoReply(env, c))
    decreases Handlers(c), |c.code|, if c.flags.asyncMode then |c.input.buffer| + 1 else 0, 3
  {
    if !c.flags.asyncMode {
      EmptyHasNoLine(env.protocol.input);
      FinishInput(env, Dropping(c, c.input.(buffer := [])), ReplyTimeout);
    } else if !c.input.unparsed {
      EvalInInput(env, c);
    }
  }

  lemma TakeInputInput(env: Env, c: Core, o: Outcome, b: Bytes)
    requires RunFine(c) && OneRule(env.protocol.input) && !c.flags.aborted && BringsInput(c.lastInputStatus)
    requires RestOf(env.protocol.input, c.trace) == Some(b)
    requires Sensible(env.protocol.input, c.activeCommand == In, |b|, o)
    requires TakesFrom(env.protocol.input, b, c.activeCommand == In, c.lastInputStatus, o)
    ensures StillWants(env, TakeInput(env, c, o, |b|))
    decreases Handlers(c), |c.code|, if c.flags.asyncMode then |b| + 1 else 0, 4
  {
    EmptyHasNoLine(env.protocol.input);
    if o.Line? {
      LineLeavesRest(env.protocol.input, c, o, b);
      TakeLineInput(env, c, o, |b|);
    }
  }

  lemma LineLeavesRest(config: Config, c: Core, o: Outcome, b: Bytes)
    requires BringsInput(c.lastInputStatus) && RestOf(config, c.trace) == Some(b)
    requires o.Line? && TakesFrom(config, b, true, c.lastInputStatus, o)
    ensures InputFine(config, Tell(c.(input := o.pending), Parsed(o.text, c.lastInputStatus)))
    ensures !o.ended ==> InputFine(config, Dropping(c, o.pending))
  {
    EmptyHasNoLine(config);
  }

  lemma TakeLineInput(env: Env, c: Core, o: Outcome, size: nat)
    requires RunFine(c) && OneRule(env.protocol.input) && !c.flags.aborted
    requires o.Line? && Sensible(env.protocol.input, c.activeCommand == In, size, o)
    requires InputFine(env.protocol.input, Tell(c.(input := o.pending), Parsed(o.text, c.lastInputStatus)))
    requires !o.ended ==> InputFine(env.protocol.input, Dropping(c, o.pending))
    ensures TakeInput(env, c, o, size).1 == 0 && Settled(env.protocol.input, TakeInput(env, c, o, size).0)
    decreases Handlers(c), |c.code|, if c.flags.asyncMode then size + 1 else 0, 3, 1
  {
    if !o.ended && c.flags.asyncMode {
      EvalInInput(env, Dropping(c, o.pending));
    } else {
      EvalLineInput(env, Tell(c.(input := o.pending), Parsed(o.text, c.lastInputStatus)), o.status);
    }
  }

  lemma EvalLineInput(env: Env, c: Core, status: IoStatus)
    requires Going(env, c)
    ensures Settled(env.protocol.input, EvalLine(env, c, status))
    decreases Handlers(c), |c.code|, if c.flags.asyncMode then Backlog(c) + 1 else 0, 3, 0
  {
    var d := Asked(c);
    if status == IoTimeout {
      FinishInput(env, d, ReadTimeout);
    } else if Heard(env, c).yes {
      EvalInput(env, d);
    } else if c.flags.asyncMode {
      EvalInInput(env, d);
    } else {
      FinishInput(env, d, ScanError);
    }
  }

  // ---- event ----

  lemma EvalEventInput(env: Env, c: Core)
    requires Going(env, c) && c.activeCommand.Event?
    ensures Settled(env.protocol.input, EvalEvent(env, c))
    decreases Handlers(c), |c.code|, 0, 4
  {
    EventInput(env, Attentive(c), Heard(env, c).status);
  }

  lemma EventInput(env: Env, c: Core, status: IoStatus)
    requires RunFine(c) && OneRule(env.protocol.input) && Settled(env.protocol.input, c)
    ensures Settled(env.protocol.input, EventCallback(env, c, status))
    decreases Handlers(c), |c.code|, 0, 3
  {
    if !c.flags.aborted && c.flags.acceptEvent {
      var d := Listening(c, false);
      if status == IoTimeout {
        FinishInput(env, d, ReplyTimeout);
      } else if status == IoSuccess {
        EvalInput(env, d);
      } else {
        FinishInput(env, d, Fault);
      }
    }
  }

  // ---- Calls from outside ----

  lemma StartInput(env: Env, c: Core, mode: StartMode)
    requires RunFine(c) && OneRule(env.protocol.input) && InputFine(env.protocol.input, c)
    ensures Settled(env.protocol.input, StartProtocol(env, c, mode))
  {
    var d, code := Cleared(env, c, mode), ModeCode(env.protocol, mode);
    if code.Some? { EvalInput(env, d.(code := code.value, runningHandler := Success)); }
  }

  lemma CompletedInput(env: Env, c: Core, status: IoStatus)
    requires Going(env, c)
    ensures Settled(env.protocol.input, Completed(env, c, status))
  {
    if status == IoSuccess { EvalInput(env, c); } else { FinishInput(env, c, Fault); }
  }

  lemma RespondInput(env: Env, c: Core, call: Call)
    requires RunFine(c) && OneRule(env.protocol.input) && Settled(env.protocol.input, c)
    ensures Settled(env.protocol.input, Respond(env, c, call))
  {
    match call
    case Start(mode) => StartInput(env, c, mode);
    case AbortRun => FinishInput(env, c, Abort);
    case ConnectAnswer(status) => ConnectInput(env, c, status);
    case DisconnectAnswer(status) => DisconnectInput(env, c, status);
    case _ => AnswerInput(env, c, call);
  }

  lemma ConnectInput(env: Env, c: Core, status: IoStatus)
    requires RunFine(c) && OneRule(env.protocol.input) && Settled(env.protocol.input, c)
    ensures Settled(env.protocol.input, ConnectCallback(env, c, status))
  {
    if !c.flags.aborted {
      StartInput(env, c, StartInit);
      CompletedInput(env, c, status);
    }
  }

  lemma DisconnectInput(env: Env, c: Core, status: IoStatus)
    requires RunFine(c) && OneRule(env.protocol.input) && Settled(env.protocol.input, c)
    ensures Settled(env.protocol.input, DisconnectCallback(env, c, status))
  {
    if !c.flags.aborted {
      FinishInput(env, Forgotten(c), Offline);
      CompletedInput(env, c, status);
    }
  }

  lemma AnswerInput(env: Env, c: Core, call: Call)
    requires RunFine(c) && OneRule(env.protocol.input) && Settled(env.protocol.input, c)
    requires call.LockAnswer? || call.WriteAnswer? || call.ReadAnswer? || call.EventAnswer? || call.Timer? || call.ExecAnswer?
    ensures Settled(env.protocol.input, Answered(env, c, call))
  {
    match call
    case LockAnswer(status) => LockInput(env, c, status);
    case WriteAnswer(status) => WriteInput(env, c, status);
    case EventAnswer(status) => EventInput(env, c, status);
    case ReadAnswer(status, chunk) => if !c.flags.aborted { ReadInput(env, c, status, chunk); }
    case Timer => if !c.flags.aborted { EvalInput(env, c.(bus := c.bus.(waitPending := false))); }
    case ExecAnswer(status) => if !c.flags.aborted { CompletedInput(env, c, status); }
  }

  lemma {:induction false} AfterInput(env: Env, c: Core, calls: seq<Call>)
    requires RunFine(c) && OneRule(env.protocol.input) && Settled(env.protocol.input, c)
    ensures Settled(env.protocol.input, After(env, c, calls))
    decreases |calls|
  {
    if calls != [] {
      RespondInput(env, c, calls[0]);
      AfterInput(env, Respond(env, c, calls[0]), calls[1..]);
    }
  }

  /** With a terminator alone or maxInput alone, whatever is called and answered:
      the lines matched by the `in` commands are the lines of the bytes received,
      nothing is lost but what is dropped, and an `in` that waits for input has
      taken every line that is there. */
  lemma LinesInEveryRun(env: Env, calls: seq<Call>)
    requires OneRule(env.protocol.input)
    ensures var c, config := After(env, INITIAL, calls), env.protocol.input;
            && WatchInput(config, Log(c.trace)) == Some(c.input.buffer)
            && LineDiscipline(config, Log(c.trace))
            && (c.activeCommand == In && c.flags.acceptInput && !BusPending(c) && !c.diverged ==>
                  LineLength(config, c.input.buffer) == -1)
  {
    var c, config := After(env, INITIAL, calls), env.protocol.input;
    EmptyHasNoLine(config);
    AfterInput(env, INITIAL, calls);
    InputIsWatched(config, c.trace);
    LinesTakenWell(config, Log(c.trace));
  }
}
