/**
 The main results about StreamCore: statements over every sequence of calls,
 every protocol and every behaviour of the bus.
 */
module StreamRuns {
  import opened Basics
  import opened LineInput
  import opened StreamTrace
  import opened StreamState
  import opened StreamMachine

  // ---- With no assumption about the bus or the client ----

  /** Whatever is called and answered, and in whatever order: an error is never
      followed by a success of the same run, a run enters at most one error
      handler, and without asynchronous mode every call ends. */
  lemma AnyRun(env: Env, calls: seq<Call>)
    ensures var c := After(env, INITIAL, calls);
            && StickyErrors(Log(c.trace)) && SingleHandler(Log(c.trace))
            && (!env.protocol.asyncRead ==> !c.diverged)
  {
    var c := After(env, INITIAL, calls);
    LogIsWatched(c.trace);
    ErrorsReportedWell(Log(c.trace));
  }

  // ---- The bus ----

  /** No protocol is started while the core owns the bus. */
  predicate NeverStartsAsOwner(env: Env, c: Core, calls: seq<Call>)
    requires RunFine(c)
    decreases |calls|
  {
    calls == [] || (!StartsAsOwner(c, calls[0]) && NeverStartsAsOwner(env, Respond(env, c, calls[0]), calls[1..]))
  }

  lemma {:induction false} LostStaysLost(env: Env, c: Core, calls: seq<Call>)
    requires RunFine(c) && Lost(c)
    ensures Lost(After(env, c, calls))
    decreases |calls|
  {
    if calls != [] { LostStaysLost(env, Respond(env, c, calls[0]), calls[1..]); }
  }

  lemma {:induction false} SoundUntilStart(env: Env, c: Core, calls: seq<Call>)
    requires RunFine(c) && Sound(c)
    ensures if NeverStartsAsOwner(env, c, calls) then Sound(After(env, c, calls)) else Lost(After(env, c, calls))
    decreases |calls|
  {
    if calls != [] {
      var d := Respond(env, c, calls[0]);
      if StartsAsOwner(c, calls[0]) { LostStaysLost(env, d, calls[1..]); } else { SoundUntilStart(env, d, calls[1..]); }
    }
  }

  /** For every order of calls and answers: the core knows whether it owns the
      bus if and only if no protocol was started while it was owner. */
  lemma OwnershipIsKnown(env: Env, calls: seq<Call>)
    ensures BusKnown(After(env, INITIAL, calls)) <==> NeverStartsAsOwner(env, INITIAL, calls)
  {
    SoundUntilStart(env, INITIAL, calls);
  }

  /** Then accepted locks and unlocks alternate, writes happen under the lock,
      and at most one of the pending flags is set. */
  lemma BusIsUsedWell(env: Env, calls: seq<Call>)
    requires NeverStartsAsOwner(env, INITIAL, calls)
    ensures var c := After(env, INITIAL, calls); AtMostOnePending(c.bus) && BusDiscipline(Log(c.trace))
  {
    var c := After(env, INITIAL, calls);
    SoundUntilStart(env, INITIAL, calls);
    LogIsWatched(c.trace);
    BusUsedWell(Log(c.trace));
  }

  // ---- When every call comes in turn ----

  predicate Orderly(env: Env, c: Core, calls: seq<Call>)
    requires RunFine(c)
    decreases |calls|
  {
    calls == [] || (InTurn(c, calls[0]) && Orderly(env, Respond(env, c, calls[0]), calls[1..]))
  }

  lemma {:induction false} OrderlyKeeps(env: Env, c: Core, calls: seq<Call>)
    requires RunFine(c) && Waiting(c) && Orderly(env, c, calls)
    ensures Waiting(After(env, c, calls)) && NeverStartsAsOwner(env, c, calls)
    decreases |calls|
  {
    if calls != [] { OrderlyKeeps(env, Respond(env, c, calls[0]), calls[1..]); }
  }

  /** The active command waits for its own answer, an ended run has given the
      bus back, and no protocol is ever started as owner. */
  lemma OrderlyRun(env: Env, calls: seq<Call>)
    requires Orderly(env, INITIAL, calls)
    ensures Waiting(After(env, INITIAL, calls)) && NeverStartsAsOwner(env, INITIAL, calls)
  {
    OrderlyKeeps(env, INITIAL, calls);
  }

  // ---- When a protocol is started as owner ----

  /** The bus accepts everything and answers later; every value fits. */
  const PATIENT: World := n => Answer(true, false, IoSuccess, [])

  /** An init protocol with one output command. */
  const OUT_ONLY := Env(Protocol(None, Some([Out]), [], [], [], [], Config([], 0), false), PATIENT)

  lemma OutAsks(c: Core)
    requires RunFine(c)
    ensures var d := Respond(OUT_ONLY, c, Start(StartInit));
            && d.bus == NO_BUS.(lockPending := true) && BusOf(d.trace) == BusOf(c.trace)
            && d.flags.initRun && !d.flags.aborted
  {
    StartWaits(OUT_ONLY, c, StartInit, [Out]);
  }

  lemma StartWaits(env: Env, c: Core, mode: StartMode, code: Code)
    requires RunFine(c) && env.world == PATIENT && ModeCode(env.protocol, mode) == Some(code) && code != [] && code[0] == Out
    ensures var d := Begun(Cleared(env, c, mode).(code := code, runningHandler := Success));
            Respond(env, c, Start(mode)) == Asked(Locking(Prepared(Emptied(d)), true))
  {
    var d := Cleared(env, c, mode).(code := code, runningHandler := Success);
    var e := Begun(d);
    assert Respond(env, c, Start(mode)) == Eval(env, d) == EvalActive(env, e) == StreamMachine.EvalOut(env, e);
    OutWaits(env, e);
  }

  /** On a patient bus an output command waits for the lock. */
  lemma OutWaits(env: Env, c: Core)
    requires RunFine(c) && c.activeCommand == Out && !BusPending(c) && !c.bus.owner && env.world == PATIENT
    ensures StreamMachine.EvalOut(env, c) == Asked(Locking(Prepared(Emptied(c)), true))
  {
    var p := Prepared(Emptied(c));
    assert StreamMachine.EvalOut(env, c) == Send(env, p) == AskForBus(env, p);
    assert LockRequest(env, Locking(p, true)) == (Asked(Locking(p, true)), true);
  }

  lemma LockTakes(c: Core)
    requires RunFine(c) && c.bus.lockPending && !c.flags.aborted
    ensures var d := Respond(OUT_ONLY, c, LockAnswer(IoSuccess));
            d.bus.owner && BusOf(d.trace) == BusAfter(BusAfter(BusOf(c.trace), Locked), Written)
  {
    var env := OUT_ONLY;
    var d := Owning(c);
    assert Respond(env, c, LockAnswer(IoSuccess)) == WriteFirst(env, d);
    assert WriteRequest(env, Writing(d)) == (Asked(Tell(Writing(d), Written)), true);
  }

  /** An aborted init run gets its lock after all; the next run is started while
      the core is owner and locks once more. */
  lemma StartAsOwnerMisusesBus()
    ensures var c1 := Respond(OUT_ONLY, INITIAL, Start(StartInit));
            var c2 := Respond(OUT_ONLY, c1, AbortRun);
            var c3 := Respond(OUT_ONLY, c2, LockAnswer(IoSuccess));
            var c4 := Respond(OUT_ONLY, c3, Start(StartInit));
            var c5 := Respond(OUT_ONLY, c4, LockAnswer(IoSuccess));
            StartsAsOwner(c3, Start(StartInit)) && !BusDiscipline(Log(c5.trace))
  {
    OutAsks(INITIAL);
    var c1 := Respond(OUT_ONLY, INITIAL, Start(StartInit));
    OwnerStartsFrom(c1);
  }

  lemma OwnerStartsFrom(c1: Core)
    requires RunFine(c1) && c1.bus == NO_BUS.(lockPending := true) && BusOf(c1.trace) == Free
    requires c1.flags.initRun && !c1.flags.aborted
    ensures var c2 := Respond(OUT_ONLY, c1, AbortRun);
            var c3 := Respond(OUT_ONLY, c2, LockAnswer(IoSuccess));
            var c4 := Respond(OUT_ONLY, c3, Start(StartInit));
            var c5 := Respond(OUT_ONLY, c4, LockAnswer(IoSuccess));
            StartsAsOwner(c3, Start(StartInit)) && !BusDiscipline(Log(c5.trace))
  {
    var c2 := Respond(OUT_ONLY, c1, AbortRun);
    AbortKeepsWait(OUT_ONLY, c1);
    LockTakes(c2);
    var c3 := Respond(OUT_ONLY, c2, LockAnswer(IoSuccess));
    OutAsks(c3);
    var c4 := Respond(OUT_ONLY, c3, Start(StartInit));
    LockTakes(c4);
    var c5 := Respond(OUT_ONLY, c4, LockAnswer(IoSuccess));
    LogIsWatched(c5.trace);
    BusUsedWell(Log(c5.trace));
  }

  // ---- Early events ----

  /** An accepted event has no effect but to clear its flag, exactly if another
      answer is awaited: unlike early input it is not kept. */
  lemma EarlyEventIsLost(env: Env, c: Core)
    requires RunFine(c) && c.flags.acceptEvent && !c.flags.aborted
    ensures Respond(env, c, EventAnswer(IoSuccess)) == Listening(c, false) <==> BusPending(c)
  {
    var d := Listening(c, false);
    assert Respond(env, c, EventAnswer(IoSuccess)) == Eval(env, d);
    if !BusPending(c) {
      if d.code == [] {
        assert Eval(env, d) == Finish(env, d.(activeCommand := End), Success);
      } else {
        assert Eval(env, d) == EvalActive(env, Begun(d));
      }
    }
  }

  /** An output command and an event command. */
  const OUT_THEN_EVENT := Env(Protocol(Some([Out, Command.Event(false)]), None, [], [], [], [], Config([], 0), false), PATIENT)

  /** While the output still waits for the lock, the event may come, is accepted and is lost. */
  lemma EarlyEventOccurs()
    ensures var c := Respond(OUT_THEN_EVENT, INITIAL, Start(StartNormal));
            && InTurn(c, EventAnswer(IoSuccess)) && c.flags.acceptEvent && !c.flags.aborted && c.bus.lockPending
            && Respond(OUT_THEN_EVENT, c, EventAnswer(IoSuccess)) == Listening(c, false)
  {
    var env, code := OUT_THEN_EVENT, [Out, Command.Event(false)];
    StartWaits(env, INITIAL, StartNormal, code);
    EarlyEventIsLost(env, Respond(env, INITIAL, Start(StartNormal)));
  }

  // ---- Awaited answers ----

  /** The call answers what the core waits for, or brings accepted input or an accepted event. */
  predicate Awaited(c: Core, call: Call) {
    match call
    case LockAnswer(_) => c.bus.lockPending
    case WriteAnswer(_) => c.bus.writePending
    case Timer => c.bus.waitPending
    case ReadAnswer(status, _) => c.flags.acceptInput && !(status == IoNoReply && c.flags.asyncMode)
    case EventAnswer(status) => c.flags.acceptEvent && !(status == IoSuccess && BusPending(c))
    case ExecAnswer(status) => c.activeCommand == Exec && !(status == IoSuccess && BusPending(c))
    case _ => false
  }

  /** An awaited answer is never ignored: something is done and noted. */
  lemma AwaitedAnswerMoves(env: Env, c: Core, call: Call)
    requires RunFine(c) && AtMostOnePending(c.bus) && !c.flags.aborted && Awaited(c, call)
    ensures Length(c.trace) < Length(Respond(env, c, call).trace)
  {
    match call
    case ReadAnswer(status, chunk) => AwaitedInputMoves(env, c, status, chunk);
    case LockAnswer(status) =>
      assert Respond(env, c, call) == StreamMachine.LockCallback(env, c, status);
      if status == IoSuccess { assert Length(Owning(c).trace) == Length(c.trace) + 1; }
    case WriteAnswer(status) => assert Respond(env, c, call) == StreamMachine.WriteCallback(env, c, status);
    case Timer => assert Respond(env, c, call) == Eval(env, c.(bus := c.bus.(waitPending := false)));
    case EventAnswer(status) => assert Respond(env, c, call) == EventCallback(env, c, status);
    case ExecAnswer(status) => assert Respond(env, c, call) == Completed(env, c, status);
  }

  lemma AwaitedInputMoves(env: Env, c: Core, status: IoStatus, chunk: Bytes)
    requires RunFine(c) && !c.flags.aborted && Awaited(c, ReadAnswer(status, chunk))
    ensures Length(c.trace) < Length(ReadCallback(env, c, status, chunk).0.trace)
  {
    var d := c.(lastInputStatus := status);
    if status == IoNoReply {
      assert ReadCallback(env, c, status, chunk) == (NoReply(env, d), 0);
    } else if status == IoFault {
      assert ReadCallback(env, c, status, chunk) == (Finish(env, d, Fault), 0);
    } else {
      assert ReadCallback(env, c, status, chunk) == AppendInput(env, d, chunk);
      ReceiveIsSensible(env.protocol.input, d.input, d.activeCommand == In, status, chunk);
      assert Length(Tell(d, Gained(chunk)).trace) == Length(c.trace) + 1;
    }
  }

  /** The same protocol with a bus that is asked the same and takes its time over the next answer. */
  predicate Delays(env: Env, slow: Env, c: Core) {
    var a, b := Heard(env, c), Heard(slow, c);
    a.now && a.yes && b == a.(now := false) && slow.protocol == env.protocol
  }

  /** It makes no difference whether the bus answers before its request returns
      or right after: for locks, writes, reads and events. */
  lemma SoonOrLater(env: Env, slow: Env, c: Core)
    requires RunFine(c) && Delays(env, slow, c)
    ensures var a := Heard(env, c);
            && LockRequest(env, c).0 == Respond(env, LockRequest(slow, c).0, LockAnswer(a.status))
            && (c.bus.owner ==> WriteRequest(env, c).0 == Respond(env, WriteRequest(slow, c).0, WriteAnswer(a.status)))
            && (!c.flags.asyncMode ==> AskForInput(env, c) == Respond(env, AskForInput(slow, c), ReadAnswer(a.status, a.chunk)))
            && (c.activeCommand.Event? ==> EvalEvent(env, c) == Respond(env, EvalEvent(slow, c), EventAnswer(a.status)))
  {
    LockSoonOrLater(env, slow, c);
    if c.bus.owner { WriteSoonOrLater(env, slow, c); }
    if !c.flags.asyncMode { ReadSoonOrLater(env, slow, c); }
    if c.activeCommand.Event? { EventSoonOrLater(env, slow, c); }
  }

  lemma LockSoonOrLater(env: Env, slow: Env, c: Core)
    requires RunFine(c) && Delays(env, slow, c)
    ensures LockRequest(env, c).0 == Respond(env, LockRequest(slow, c).0, LockAnswer(Heard(env, c).status))
  {
    assert LockRequest(slow, c).0 == Asked(c);
  }

  lemma WriteSoonOrLater(env: Env, slow: Env, c: Core)
    requires RunFine(c) && Delays(env, slow, c) && c.bus.owner
    ensures WriteRequest(env, c).0 == Respond(env, WriteRequest(slow, c).0, WriteAnswer(Heard(env, c).status))
  {
    assert WriteRequest(slow, c).0 == Asked(Tell(c, Written));
  }

  lemma ReadSoonOrLater(env: Env, slow: Env, c: Core)
    requires RunFine(c) && Delays(env, slow, c) && !c.flags.asyncMode
    ensures var a := Heard(env, c);
            AskForInput(env, c) == Respond(env, AskForInput(slow, c), ReadAnswer(a.status, a.chunk))
  {
    assert AskForInput(slow, c) == Asked(c);
  }

  lemma EventSoonOrLater(env: Env, slow: Env, c: Core)
    requires RunFine(c) && Delays(env, slow, c) && c.activeCommand.Event?
    ensures EvalEvent(env, c) == Respond(env, EvalEvent(slow, c), EventAnswer(Heard(env, c).status))
  {
    assert EvalEvent(slow, c) == Attentive(c);
  }

  // ---- Abort ----

  /** With the flag set the core ignores everything but a start and another abort. */
  lemma AbortedIsDeaf(env: Env, c: Core, call: Call)
    requires RunFine(c) && c.flags.aborted && !call.Start? && call != AbortRun
    ensures Respond(env, c, call) == c
  {
  }

  function Aborted(env: Env, c: Core): Core
    requires RunFine(c)
  {
    Finish(env, c, Abort)
  }

  /** An abort ends the run, but the flag that makes the core deaf is only set
      outside error handlers and @init. */
  lemma AbortSetsFlag(env: Env, c: Core)
    requires RunFine(c)
    ensures var d := Aborted(env, c);
            && Ended(d, Abort) && BusPending(d) == BusPending(c)
            && (d.flags.aborted <==> c.flags.aborted || (c.runningHandler == Success && !c.flags.initRun))
  {
    var r := Record(c, Abort);
    if Handlers(c) == 0 {
      assert Aborted(env, c) == Report(r, Abort);
    } else {
      assert Aborted(env, c) == HandleFirst(env, r, Abort);
      assert HandleFirst(env, r, Abort) == Report(FindHandler(env, r, Abort).0, Abort);
    }
  }

  /** Calls of the bus and the timer that answer something. */
  predicate IsAnswer(call: Call) {
    call.LockAnswer? || call.WriteAnswer? || call.ReadAnswer? || call.EventAnswer? || call.Timer? || call.ExecAnswer?
  }

  predicate AllAnswers(calls: seq<Call>) { forall i | 0 <= i < |calls| :: IsAnswer(calls[i]) }

  /** Nothing listens and nothing is awaited. */
  predicate Deaf(c: Core) {
    c.activeCommand == End && !c.flags.acceptInput && !c.flags.acceptEvent && (c.flags.aborted || !BusPending(c))
  }

  lemma {:induction false} DeafStaysSilent(env: Env, c: Core, calls: seq<Call>)
    requires RunFine(c) && Deaf(c) && AllAnswers(calls)
    ensures var d := After(env, c, calls); d.activeCommand == End && d.trace == c.trace
    decreases |calls|
  {
    if calls != [] {
      var d := Respond(env, c, calls[0]);
      assert IsAnswer(calls[0]);
      assert d == c.(lastInputStatus := d.lastInputStatus);
      DeafStaysSilent(env, d, calls[1..]);
    }
  }

  /** An awaited answer moves an ended run that is not deaf. */
  lemma PendingAnswerMoves(env: Env, c: Core) returns (call: Call)
    requires RunFine(c) && c.activeCommand == End && !c.flags.aborted && BusPending(c) && AtMostOnePending(c.bus)
    ensures IsAnswer(call) && Moved(c, Respond(env, c, call))
  {
    call := if c.bus.lockPending then LockAnswer(IoTimeout) else if c.bus.writePending then WriteAnswer(IoFault) else Timer;
    AwaitedAnswerMoves(env, c, call);
  }

  /** After an abort no answer has any effect on run and record, exactly if the
      flag was set or nothing was awaited. */
  lemma AbortSilences(env: Env, c: Core)
    requires RunFine(c) && Waiting(c)
    ensures var d := Aborted(env, c);
            (forall calls: seq<Call> | AllAnswers(calls) ::
               After(env, d, calls).activeCommand == End && After(env, d, calls).trace == d.trace)
            <==> c.flags.aborted || (c.runningHandler == Success && !c.flags.initRun) || !BusPending(c)
  {
    var d := Aborted(env, c);
    AbortSetsFlag(env, c);
    if d.flags.aborted || !BusPending(d) {
      forall calls: seq<Call> | AllAnswers(calls)
        ensures After(env, d, calls).activeCommand == End && After(env, d, calls).trace == d.trace
      {
        DeafStaysSilent(env, d, calls);
      }
    } else {
      assert Waiting(d);
      var call := PendingAnswerMoves(env, d);
      assert AllAnswers([call]);
      assert [call][1..] == [];
      assert After(env, d, [call]) == Respond(env, d, call);
    }
  }

  /** A run that waits for an event, with a handler that waits for a timer. */
  const EVENT_THEN_WAIT := Env(Protocol(Some([Command.Event(false)]), None, [], [Wait], [], [], Config([], 0), false), PATIENT)

  lemma EventStarts()
    ensures var c := Respond(EVENT_THEN_WAIT, INITIAL, Start(StartNormal));
            && c.flags == Flags(false, false, false, true, false) && c.bus == NO_BUS && c.runningHandler == Success
  {
    var env, code := EVENT_THEN_WAIT, [Command.Event(false)];
    var d := Cleared(env, INITIAL, StartNormal).(code := code, runningHandler := Success);
    var e := Begun(d);
    assert Respond(env, INITIAL, Start(StartNormal)) == Eval(env, d) == EvalActive(env, e) == EvalEvent(env, e);
    assert EvalEvent(env, e) == Listening(Asked(e), true);
  }

  /** The event does not come, and the handler waits. */
  lemma HandlerWaits(c: Core)
    requires RunFine(c) && Handlers(c) == 1 && !BusPending(c) && c.flags.acceptEvent && !c.flags.aborted
    ensures var d := Respond(EVENT_THEN_WAIT, c, EventAnswer(IoTimeout));
            && d.bus == c.bus.(waitPending := true) && d.code == [] && d.runningHandler == ReplyTimeout
            && !d.flags.initRun && !d.flags.aborted
  {
    var env := EVENT_THEN_WAIT;
    var e := Listening(c, false);
    var r := Record(e, ReplyTimeout);
    assert Respond(env, c, EventAnswer(IoTimeout)) == Finish(env, e, ReplyTimeout);
    assert Finish(env, e, ReplyTimeout) == HandleFirst(env, r, ReplyTimeout) == StartHandler(env, r, [Wait]);
    WaitHandlerWaits(env, r);
  }

  lemma WaitHandlerWaits(env: Env, c: Core)
    requires RunFine(c) && !c.flags.initRun && c.runningHandler != Success && !RunOf(c.trace).handled && !BusPending(c)
    ensures var d := StartHandler(env, c, [Wait]);
            && d.bus == c.bus.(waitPending := true) && d.code == [] && d.runningHandler == c.runningHandler && d.flags == c.flags
  {
    var h := Tell(c, Handling).(code := [Wait]);
    assert StartHandler(env, c, [Wait]) == Eval(env, h) == EvalActive(env, Begun(h));
  }

  /** After an abort the timer makes the run report once more. */
  predicate ResumesAs(env: Env, c: Core, status: Result)
    requires RunFine(c)
  {
    var d := Respond(env, c, AbortRun);
    var e := Respond(env, d, Timer);
    Ended(d, Abort) && Length(e.trace) > Length(d.trace) && Ended(e, status)
  }

  /** An abort in a handler, then the timer: the rest of the handler runs. */
  lemma TimerResumes(env: Env, c: Core)
    requires RunFine(c) && c.bus.waitPending && !c.bus.lockPending && !c.bus.writePending && c.code == []
    requires c.runningHandler != Success && !c.flags.initRun && !c.flags.aborted
    ensures ResumesAs(env, c, c.runningHandler)
  {
    AbortKeepsWait(env, c);
    TimerReports(env, Respond(env, c, AbortRun));
  }

  lemma AbortKeepsWait(env: Env, c: Core)
    requires RunFine(c) && Handlers(c) == 0
    ensures var d := Respond(env, c, AbortRun);
            && Ended(d, Abort) && d.bus == c.bus.(owner := false) && d.code == c.code
            && (!c.bus.owner ==> BusOf(d.trace) == BusOf(c.trace))
            && d.runningHandler == c.runningHandler && d.flags.initRun == c.flags.initRun && d.flags.aborted == c.flags.aborted
  {
    assert Respond(env, c, AbortRun) == Report(Record(c, Abort), Abort);
  }

  lemma TimerReports(env: Env, c: Core)
    requires RunFine(c) && c.bus == NO_BUS.(waitPending := true) && c.code == []
    requires Handlers(c) == 0 && !c.flags.aborted
    ensures var d := Respond(env, c, Timer); Length(d.trace) > Length(c.trace) && Ended(d, c.runningHandler)
  {
    var w := c.(bus := c.bus.(waitPending := false));
    assert Respond(env, c, Timer) == Eval(env, w) == Finish(env, w.(activeCommand := End), Success);
  }

  lemma HandlerResumes(c1: Core)
    requires RunFine(c1) && Handlers(c1) == 1 && !BusPending(c1) && c1.flags.acceptEvent && !c1.flags.aborted
    ensures ResumesAs(EVENT_THEN_WAIT, Respond(EVENT_THEN_WAIT, c1, EventAnswer(IoTimeout)), ReplyTimeout)
  {
    HandlerWaits(c1);
    TimerResumes(EVENT_THEN_WAIT, Respond(EVENT_THEN_WAIT, c1, EventAnswer(IoTimeout)));
  }

  /** A handler, an abort while it waits, and then the timer: the record hears
      from a run that it was told is over. */
  lemma AbortedHandlerResumes()
    ensures var c := Respond(EVENT_THEN_WAIT, INITIAL, Start(StartNormal));
            ResumesAs(EVENT_THEN_WAIT, Respond(EVENT_THEN_WAIT, c, EventAnswer(IoTimeout)), ReplyTimeout)
  {
    EventStarts();
    HandlerResumes(Respond(EVENT_THEN_WAIT, INITIAL, Start(StartNormal)));
  }
}
