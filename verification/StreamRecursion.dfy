/**
 evalIn and readCallback call each other as long as buffered input gives no
 matching line in asynchronous mode. The two calls as a step function, and
 exactly when they never return.
 */
module StreamRecursion {
  import opened Basics
  import opened LineInput
  import opened StreamTrace
  import opened StreamState
  import opened StreamMachine
  import opened StreamRuns

  /** The call that is under way, with the input and the status it uses. */
  datatype Frame =
    | AtEvalIn(input: Pending, status: IoStatus)
    | AtRead(input: Pending, status: IoStatus)
    | Left

  /** evalIn, and readCallback without new bytes; `matches` says which lines match. */
  function NextCall(c: Config, async: bool, matches: Bytes -> bool, f: Frame): Frame {
    match f
    case AtEvalIn(p, status) => if p.unparsed then AtRead(p, status) else Left
    case AtRead(p, status) =>
      if status == IoNoReply then (if async then AtEvalIn(p, status) else Left)
      else if status == IoFault || !async then Left
      else
        var o := Receive(c, p, true, status, []);
        if o.Line? && (!o.ended || (o.status != IoTimeout && !matches(o.text))) then AtEvalIn(o.pending, status) else Left
    case Left => Left
  }

  function Calls(c: Config, async: bool, matches: Bytes -> bool, f: Frame, n: nat): Frame
    decreases n
  {
    if n == 0 then f else Calls(c, async, matches, NextCall(c, async, matches, f), n - 1)
  }

  ghost predicate NeverReturns(c: Config, async: bool, matches: Bytes -> bool, f: Frame) {
    forall n: nat :: Calls(c, async, matches, f, n) != Left
  }

  predicate Stuck(async: bool, f: Frame) { async && !f.Left? && f.input.unparsed && f.status == IoNoReply }

  lemma {:induction false} StuckForEver(c: Config, async: bool, matches: Bytes -> bool, f: Frame, n: nat)
    requires Stuck(async, f)
    ensures Calls(c, async, matches, f, n) != Left
    decreases n
  {
    if n > 0 { StuckForEver(c, async, matches, NextCall(c, async, matches, f), n - 1); }
  }

  function Work(f: Frame): nat {
    if f.AtRead? || (f.AtEvalIn? && f.input.unparsed) then |f.input.buffer| + 1 else 0
  }

  /** Every restart takes a line out of the buffer. */
  lemma {:induction false} Leaves(c: Config, async: bool, matches: Bytes -> bool, f: Frame) returns (n: nat)
    requires !Stuck(async, f)
    ensures Calls(c, async, matches, f, n) == Left
    decreases Work(f), if f.AtEvalIn? then 1 else 0
  {
    var g := NextCall(c, async, matches, f);
    if f.Left? {
      n := 0;
    } else if g.Left? {
      n := 1;
      assert Calls(c, async, matches, f, 1) == Calls(c, async, matches, g, 0);
    } else {
      if f.AtRead? { ReceiveIsSensible(c, f.input, true, f.status, []); }
      var k := Leaves(c, async, matches, g);
      n := k + 1;
    }
  }

  /** The two calls never return exactly in asynchronous mode with unparsed
      input left and a missing reply as the last status. */
  lemma NeverReturnsIff(c: Config, async: bool, matches: Bytes -> bool, f: Frame)
    ensures NeverReturns(c, async, matches, f) <==> Stuck(async, f)
  {
    if Stuck(async, f) {
      forall n: nat ensures Calls(c, async, matches, f, n) != Left { StuckForEver(c, async, matches, f, n); }
    } else {
      var n := Leaves(c, async, matches, f);
    }
  }

  /** A missing reply marks the core as diverged exactly if the calls never return. */
  lemma MarkedIffNeverReturns(env: Env, c: Core, matches: Bytes -> bool)
    requires RunFine(c) && !c.diverged && !c.flags.aborted && c.flags.acceptInput
    ensures ReadCallback(env, c, IoNoReply, []).0.diverged
       <==> NeverReturns(env.protocol.input, c.flags.asyncMode, matches, AtRead(c.input, IoNoReply))
  {
    NeverReturnsIff(env.protocol.input, c.flags.asyncMode, matches, AtRead(c.input, IoNoReply));
    var d := c.(lastInputStatus := IoNoReply);
    assert ReadCallback(env, c, IoNoReply, []).0 == NoReply(env, d);
    if c.flags.asyncMode && !c.input.unparsed {
      var e := d.(flags := d.flags.(acceptInput := true));
      assert NoReply(env, d) == EvalIn(env, d) == AskForInput(env, e) == Asked(Unlock(e));
    }
  }

  // ---- Runs that end there ----

  /** A missing reply in a synchronous run clears the buffer but not the flag. */
  lemma NoReplyLeavesFlag(env: Env, c: Core)
    requires RunFine(c) && Reading(c) && !c.flags.asyncMode && c.input.unparsed
    requires Handlers(c) == 1 && env.protocol.onReplyTimeout == []
    ensures var d := Respond(env, c, ReadAnswer(IoNoReply, []));
            d.input.unparsed && d.lastInputStatus == IoNoReply && d.activeCommand == End
  {
    var d := c.(lastInputStatus := IoNoReply);
    var e := Dropping(d, d.input.(buffer := []));
    assert Respond(env, c, ReadAnswer(IoNoReply, [])) == NoReply(env, d) == Finish(env, e, ReplyTimeout);
    EmptyHandlerKeepsInput(env, e);
  }

  /** A missing handler is an empty one, which ends the run at once. */
  lemma EmptyHandlerKeepsInput(env: Env, c: Core)
    requires RunFine(c) && !BusPending(c) && Handlers(c) == 1 && env.protocol.onReplyTimeout == []
    ensures var d := Finish(env, c, ReplyTimeout);
            d.input == c.input && d.lastInputStatus == c.lastInputStatus && d.activeCommand == End
  {
    var r := Record(c, ReplyTimeout);
    assert Finish(env, c, ReplyTimeout) == HandleFirst(env, r, ReplyTimeout) == StartHandler(env, r, []);
    EndOfHandler(env, Tell(r, Handling).(code := []));
  }

  lemma EndOfHandler(env: Env, c: Core)
    requires RunFine(c) && !BusPending(c) && Handlers(c) == 0 && c.code == []
    ensures var d := Eval(env, c);
            d.input == c.input && d.lastInputStatus == c.lastInputStatus && d.activeCommand == End
  {
    var e := c.(activeCommand := End);
    assert Eval(env, c) == Finish(env, e, Success) == Report(Record(e, Success), c.runningHandler);
  }

  /** From there every asynchronous start of a protocol that begins with `in` diverges. */
  lemma AsyncStartDiverges(env: Env, c: Core)
    requires RunFine(c) && c.input.unparsed && c.lastInputStatus == IoNoReply
    requires env.protocol.asyncRead && env.protocol.commands.Some?
    requires env.protocol.commands.value != [] && env.protocol.commands.value[0] == In
    ensures Respond(env, c, Start(StartAsync)).diverged
  {
    var code := env.protocol.commands.value;
    var d := Cleared(env, c, StartAsync).(code := code, runningHandler := Success);
    var e := Begun(d);
    assert Respond(env, c, Start(StartAsync)) == Eval(env, d) == EvalActive(env, e) == EvalIn(env, e);
    var g := e.(flags := e.flags.(acceptInput := true));
    assert ReadCallback(env, g, IoNoReply, []) == (NoReply(env, g), 0);
    assert EvalIn(env, e) == NoReply(env, g);
  }

  const NEWLINE: byte := 10

  const LINES := Config([NEWLINE], 0)

  /** Two input commands, lines end with a newline, no error handlers. */
  const TWO_LINES := Env(Protocol(Some([In, In]), None, [], [], [], [], LINES, true), PATIENT)

  lemma LineAndHalf()
    ensures Receive(LINES, NOTHING, true, IoSuccess, [65, NEWLINE, 66])
         == Line([65], Pending([66], true), IoSuccess, true)
    ensures Receive(LINES, Pending([66], true), true, IoSuccess, []) == More(Pending([66], true))
  {
    var chunk: Bytes, half: Bytes := [65, NEWLINE, 66], [66];
    assert [] + chunk == chunk && chunk[1..2] == [NEWLINE] && chunk[0..1][0] == 65;
    assert Find(chunk, [NEWLINE], 0) == Find(chunk, [NEWLINE], 1) == 1;
    assert chunk[..1] == [65] && chunk[2..] == [66];
    assert half + [] == half && half[0..1][0] == 66;
    assert Find(half, [NEWLINE], 0) == Find(half, [NEWLINE], 1) == -1;
  }

  lemma InWaits(c: Core)
    requires RunFine(c) && !BusPending(c) && !c.flags.asyncMode && !c.input.unparsed
    requires c.code != [] && c.code[0] == In
    ensures Eval(TWO_LINES, c)
         == Asked(Begun(c).(flags := c.flags.(acceptInput := true)))
  {
    var d := Begun(c);
    assert Eval(TWO_LINES, c) == EvalActive(TWO_LINES, d) == EvalIn(TWO_LINES, d);
    var e := d.(flags := d.flags.(acceptInput := true));
    assert EvalIn(TWO_LINES, d) == AskForInput(TWO_LINES, e) == Asked(e);
  }

  /** A line and the start of another one: the second `in` waits with unparsed input. */
  lemma RestWaits(c: Core)
    requires RunFine(c) && Reading(c) && !c.flags.asyncMode && c.input == NOTHING && c.code == [In]
    ensures var d := Respond(TWO_LINES, c, ReadAnswer(IoSuccess, [65, NEWLINE, 66]));
            && Reading(d) && !d.flags.asyncMode && d.input == Pending([66], true)
            && d.runningHandler == c.runningHandler && d.flags.initRun == c.flags.initRun
  {
    LineAndHalf();
    RestOfChunkWaits(c, [65, NEWLINE, 66], Line([65], Pending([66], true), IoSuccess, true));
  }

  lemma RestOfChunkWaits(c: Core, chunk: Bytes, o: Outcome)
    requires RunFine(c) && Reading(c) && !c.flags.asyncMode && c.code == [In] && o == Receive(LINES, c.input, true, IoSuccess, chunk)
    requires o.Line? && o.ended && o.status == IoSuccess && o.pending == Pending([66], true)
    ensures var d := Respond(TWO_LINES, c, ReadAnswer(IoSuccess, chunk));
            && Reading(d) && !d.flags.asyncMode && d.input == Pending([66], true)
            && d.runningHandler == c.runningHandler && d.flags.initRun == c.flags.initRun
  {
    LineArrives(TWO_LINES, c, chunk, o);
    SecondWaits(Matched(c, chunk, o));
  }

  /** The state after a chunk completed a line and the line matched. */
  function Matched(c: Core, chunk: Bytes, o: Outcome): (d: Core)
    requires RunFine(c) && o.Line?
    ensures RunFine(d) && (Reading(c) ==> Reading(d))
  {
    var e := Tell(c.(lastInputStatus := IoSuccess, input := o.pending), Gained(chunk));
    assert RunOf(e.trace) == RunOf(c.trace) && BusOf(e.trace) == BusOf(c.trace);
    Asked(Tell(e, Parsed(o.text, IoSuccess)))
  }

  /** A chunk completes a line, and the next command is evaluated. */
  lemma LineArrives(env: Env, c: Core, chunk: Bytes, o: Outcome)
    requires RunFine(c) && Reading(c) && env.world == PATIENT
    requires o == Receive(env.protocol.input, c.input, true, IoSuccess, chunk) && o.Line? && o.ended && o.status == IoSuccess
    ensures Respond(env, c, ReadAnswer(IoSuccess, chunk)) == Eval(env, Matched(c, chunk, o))
  {
    var e := c.(lastInputStatus := IoSuccess);
    assert ReadCallback(env, c, IoSuccess, chunk) == AppendInput(env, e, chunk);
    AppendMatches(env, e, chunk, o);
  }

  lemma AppendMatches(env: Env, c: Core, chunk: Bytes, o: Outcome)
    requires RunFine(c) && c.activeCommand == In && c.lastInputStatus == IoSuccess && env.world == PATIENT
    requires o == Receive(env.protocol.input, c.input, true, IoSuccess, chunk) && o.Line? && o.ended && o.status == IoSuccess
    ensures AppendInput(env, c, chunk) == (Eval(env, Matched(c, chunk, o)), 0)
  {
    var e, size := Tell(c, Gained(chunk)), |c.input.buffer| + |chunk|;
    ReceiveIsSensible(env.protocol.input, c.input, true, IoSuccess, chunk);
    assert AppendInput(env, c, chunk) == TakeInput(env, e, o, size);
    LineMatches(env, e, o, size);
    assert e.(input := o.pending) == Tell(c.(input := o.pending), Gained(chunk));
  }

  lemma LineMatches(env: Env, c: Core, o: Outcome, size: nat)
    requires RunFine(c) && Sensible(env.protocol.input, c.activeCommand == In, size, o) && env.world == PATIENT
    requires o.Line? && o.ended && o.status == IoSuccess
    ensures TakeInput(env, c, o, size)
         == (Eval(env, Asked(Tell(c.(input := o.pending), Parsed(o.text, c.lastInputStatus)))), 0)
  {
    var d := Tell(c.(input := o.pending), Parsed(o.text, c.lastInputStatus));
    assert EvalLine(env, d, IoSuccess) == Eval(env, Asked(d));
  }

  lemma SecondWaits(c: Core)
    requires RunFine(c) && Reading(c) && !c.flags.asyncMode && c.code == [In]
    requires c.input == Pending([66], true) && c.lastInputStatus == IoSuccess
    ensures var d := Eval(TWO_LINES, c);
            && Reading(d) && !d.flags.asyncMode && d.input == c.input
            && d.runningHandler == c.runningHandler && d.flags.initRun == c.flags.initRun
  {
    var d := Begun(c);
    assert Eval(TWO_LINES, c) == EvalActive(TWO_LINES, d) == EvalIn(TWO_LINES, d);
    var e := d.(flags := d.flags.(acceptInput := true));
    HalfIsNotEnough(e);
    var g := Tell(e, Gained([]));
    assert EvalIn(TWO_LINES, d) == AskForInput(TWO_LINES, g) == Asked(g);
  }

  lemma HalfIsNotEnough(c: Core)
    requires RunFine(c) && Reading(c) && c.input == Pending([66], true) && c.lastInputStatus == IoSuccess
    ensures ReadCallback(TWO_LINES, c, IoSuccess, []) == (Tell(c, Gained([])), -1)
  {
    LineAndHalf();
    var g := Tell(c, Gained([]));
    assert ReadCallback(TWO_LINES, c, IoSuccess, []) == AppendInput(TWO_LINES, c, []) == TakeInput(TWO_LINES, g, More(g.input), 1);
  }

  /** One and a half lines arrive, the reply to the second `in` is missing, and
      the protocol is started asynchronously: the run comes in turn and diverges. */
  lemma StaleStatusDiverges()
    ensures var c1 := Respond(TWO_LINES, INITIAL, Start(StartNormal));
            var c2 := Respond(TWO_LINES, c1, ReadAnswer(IoSuccess, [65, NEWLINE, 66]));
            var c3 := Respond(TWO_LINES, c2, ReadAnswer(IoNoReply, []));
            && InTurn(INITIAL, Start(StartNormal)) && InTurn(c1, ReadAnswer(IoSuccess, [65, NEWLINE, 66]))
            && InTurn(c2, ReadAnswer(IoNoReply, [])) && InTurn(c3, Start(StartAsync))
            && Respond(TWO_LINES, c3, Start(StartAsync)).diverged
  {
    var d := Cleared(TWO_LINES, INITIAL, StartNormal).(code := [In, In], runningHandler := Success);
    var c1 := Respond(TWO_LINES, INITIAL, Start(StartNormal));
    assert c1 == Eval(TWO_LINES, d);
    InWaits(d);
    assert [In, In][1..] == [In];
    RestWaits(c1);
    var c2 := Respond(TWO_LINES, c1, ReadAnswer(IoSuccess, [65, NEWLINE, 66]));
    NoReplyLeavesFlag(TWO_LINES, c2);
    AsyncStartDiverges(TWO_LINES, Respond(TWO_LINES, c2, ReadAnswer(IoNoReply, [])));
  }
}
