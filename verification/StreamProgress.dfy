/**
 Which commands a run executes: for every protocol, every bus and every sequence
 of calls, commands are taken from the code in order, an error is followed by
 its own handler, and success is only reported at the end of the code.
 */
module StreamProgress {
  import opened Basics
  import opened LineInput
  import opened StreamTrace
  import opened StreamState
  import opened StreamMachine

  // ---- What a protocol asks for ----

  /** The code of a run, and of a handler for an error. */
  function RunCode(p: Protocol, init: bool): Option<Code> { if init then p.onInit else p.commands }

  /** A mismatch handler that starts with `in` parses the old line again and goes on behind it. */
  function HandlerCode(p: Protocol, error: Result): Option<Code> {
    match error
    case WriteTimeout => Some(p.onWriteTimeout)
    case ReplyTimeout => Some(p.onReplyTimeout)
    case ReadTimeout => Some(p.onReadTimeout)
    case ScanError => Some(if p.onMismatch != [] && p.onMismatch[0] == In then p.onMismatch[1..] else p.onMismatch)
    case _ => None
  }

  /** The code that is left, whether an output is still to be written, whether
      `end` was taken, and the last error. */
  datatype Progress =
    | Doing(rest: Code, owes: bool, ended: bool, error: Result)
    | Astray

  function ProgressAfter(p: Protocol, g: Progress, n: Note): Progress {
    if g.Astray? then Astray else
    match n
    case Started(init) =>
      var code := RunCode(p, init);
      if code.Some? then Doing(code.value, false, false, Success) else Astray
    case Refused => g.(owes := false)
    case Began(command) =>
      if g.rest != [] && g.rest[0] == command && !g.owes
      then g.(rest := g.rest[1..], owes := command == Out, ended := command == End)
      else Astray
    case Written => g.(owes := false)
    case Failing(Success) => if (g.rest == [] || g.ended) && !g.owes then g.(error := Success) else Astray
    case Failing(error) => g.(owes := false, error := error)
    case Handling =>
      var code := HandlerCode(p, g.error);
      if code.Some? then Doing(code.value, false, false, g.error) else Astray
    case _ => g
  }

  const NOTHING_DONE := Doing([], false, false, Success)

  function ProgressOf(p: Protocol, t: Trace): Progress {
    if t.Empty? then NOTHING_DONE else ProgressAfter(p, ProgressOf(p, t.before), t.note)
  }

  function WatchProgress(p: Protocol, log: seq<Note>): Progress {
    if log == [] then NOTHING_DONE else ProgressAfter(p, WatchProgress(p, log[..|log| - 1]), log[|log| - 1])
  }

  lemma {:induction false} ProgressIsWatched(p: Protocol, t: Trace)
    ensures WatchProgress(p, Log(t)) == ProgressOf(p, t)
  {
    if t.Noted? {
      ProgressIsWatched(p, t.before);
      assert Log(t)[..|Log(t)| - 1] == Log(t.before);
    }
  }

  // ---- What the automaton accepts ----

  predicate Enters(n: Note) { n.Started? || n == Handling }

  /** The commands that were begun, in order. */
  function Commands(log: seq<Note>): seq<Command> {
    if log == [] then []
    else Commands(log[..|log| - 1]) + Taken(log[|log| - 1])
  }

  /** The last error since the start. */
  function LastError(log: seq<Note>): Result {
    if log == [] then Success
    else match log[|log| - 1]
         case Failing(error) => error
         case Started(_) => Success
         case _ => LastError(log[..|log| - 1])
  }

  /** The code that is entered at position `i`. */
  function CodeAt(p: Protocol, log: seq<Note>, i: nat): Option<Code>
    requires i < |log| && Enters(log[i])
  {
    match log[i]
    case Started(init) => RunCode(p, init)
    case _ => HandlerCode(p, LastError(log[..i]))
  }

  /** From position `i` on up to `j` the same code is executed. */
  predicate SameCode(log: seq<Note>, i: nat, j: nat) {
    i < j <= |log| && Enters(log[i]) && forall k | i < k < j :: !Enters(log[k])
  }

  /** The commands begun between the positions are the first ones of the code. */
  predicate InOrder(p: Protocol, log: seq<Note>, i: nat, j: nat)
    requires SameCode(log, i, j)
  {
    CodeAt(p, log, i).Some? && Commands(log[i + 1..j]) <= CodeAt(p, log, i).value
  }

  /** They are all of the code, or end with `end`. */
  predicate Complete(p: Protocol, log: seq<Note>, i: nat, j: nat)
    requires SameCode(log, i, j)
  {
    var done := Commands(log[i + 1..j]);
    CodeAt(p, log, i) == Some(done) || (done != [] && done[|done| - 1] == End)
  }

  /** Nothing ended the run between an output and position `m`. */
  predicate GoesOn(log: seq<Note>, k: nat, m: nat) {
    && k < m < |log| && log[k] == Began(Out) && (log[m].Began? || log[m] == Failing(Success))
    && forall x | k < x < m :: !Enters(log[x]) && log[x] != Refused && !(log[x].Failing? && log[x].status != Success)
  }

  predicate WrittenBetween(log: seq<Note>, k: nat, m: nat)
    requires m <= |log|
  {
    exists w :: k < w < m && log[w] == Written
  }

  /** Commands are begun in the order of the code that was entered: that of the
      run, or that of the handler for the last error. Success is only noted at the
      end of the code, and the next command only after an output was written. */
  ghost predicate CodeDiscipline(p: Protocol, log: seq<Note>) {
    && (forall i, j: nat | 0 <= i && SameCode(log, i, j) ::
          InOrder(p, log, i, j) && (j < |log| && log[j] == Failing(Success) ==> Complete(p, log, i, j)))
    && (forall k, m: nat | 0 <= k && GoesOn(log, k, m) :: WrittenBetween(log, k, m))
  }

  lemma {:induction false} ProgressPrefix(p: Protocol, log: seq<Note>, i: nat)
    requires i <= |log| && WatchProgress(p, log).Doing?
    ensures WatchProgress(p, log[..i]).Doing?
    decreases |log|
  {
    if i < |log| {
      assert log[..|log| - 1][..i] == log[..i];
      ProgressPrefix(p, log[..|log| - 1], i);
    } else {
      assert log[..i] == log;
    }
  }

  lemma ProgressNext(p: Protocol, log: seq<Note>, i: nat)
    requires i < |log| && WatchProgress(p, log).Doing?
    ensures WatchProgress(p, log[..i]).Doing? && WatchProgress(p, log[..i + 1]).Doing?
    ensures WatchProgress(p, log[..i + 1]) == ProgressAfter(p, WatchProgress(p, log[..i]), log[i])
  {
    ProgressPrefix(p, log, i);
    ProgressPrefix(p, log, i + 1);
    assert log[..i + 1][..i] == log[..i];
  }

  lemma {:induction false} ErrorIsLast(p: Protocol, log: seq<Note>)
    requires WatchProgress(p, log).Doing?
    ensures WatchProgress(p, log).error == LastError(log)
  {
    if log != [] {
      ProgressNext(p, log, |log| - 1);
      assert log[..|log|] == log;
      ErrorIsLast(p, log[..|log| - 1]);
    }
  }

  /** What is begun and what is left make up the code. */
  predicate Splits(g: Progress, done: seq<Command>, code: Option<Code>) {
    g.Doing? && code == Some(done + g.rest) && (g.ended <==> done != [] && done[|done| - 1] == End)
  }

  lemma CodeIsEntered(p: Protocol, log: seq<Note>, i: nat)
    requires i < |log| && Enters(log[i]) && WatchProgress(p, log).Doing?
    ensures Splits(WatchProgress(p, log[..i + 1]), [], CodeAt(p, log, i))
  {
    ProgressNext(p, log, i);
    ErrorIsLast(p, log[..i]);
    var rest := WatchProgress(p, log[..i + 1]).rest;
    assert [] + rest == rest;
  }

  lemma {:induction false} CodeSplits(p: Protocol, log: seq<Note>, after: seq<Note>, code: Option<Code>)
    requires Splits(WatchProgress(p, log), [], code) && WatchProgress(p, log + after).Doing?
    requires forall k | 0 <= k < |after| :: !Enters(after[k])
    ensures Splits(WatchProgress(p, log + after), Commands(after), code)
    decreases |after|
  {
    if after == [] {
      assert log + after == log;
    } else {
      var before, n := after[..|after| - 1], after[|after| - 1];
      assert after == before + [n] && log + after == log + before + [n];
      OneMore(p, log + before, n);
      CommandsNext(before, n);
      CodeSplits(p, log, before, code);
      NoteTakes(p, WatchProgress(p, log + before), n, Commands(before), code);
    }
  }

  lemma OneMore(p: Protocol, log: seq<Note>, n: Note)
    ensures WatchProgress(p, log + [n]) == ProgressAfter(p, WatchProgress(p, log), n)
  {
    assert (log + [n])[..|log|] == log;
  }

  function Taken(n: Note): seq<Command> { match n case Began(command) => [command] case _ => [] }

  lemma CommandsNext(log: seq<Note>, n: Note)
    ensures Commands(log + [n]) == Commands(log) + Taken(n)
  {
    assert (log + [n])[..|log|] == log;
  }

  lemma NoteTakes(p: Protocol, g: Progress, n: Note, done: seq<Command>, code: Option<Code>)
    requires Splits(g, done, code) && !Enters(n) && ProgressAfter(p, g, n).Doing?
    ensures Splits(ProgressAfter(p, g, n), done + Taken(n), code)
  {
    BegunMoves(done, g.rest);
    assert done + [] == done;
  }

  lemma BegunMoves(done: seq<Command>, rest: Code)
    ensures done + [] == done && (rest != [] ==> done + [rest[0]] + rest[1..] == done + rest)
  {
  }

  /** An output is owed until it is written. */
  lemma {:induction false} OwedUntil(p: Protocol, log: seq<Note>, k: nat, m: nat)
    requires k < m <= |log| && log[k] == Began(Out) && WatchProgress(p, log).Doing?
    requires forall x | k < x < m :: !Enters(log[x]) && log[x] != Refused && log[x] != Written && !log[x].Began?
    requires forall x | k < x < m && log[x].Failing? :: log[x].status == Success
    ensures WatchProgress(p, log[..m]).Doing? && WatchProgress(p, log[..m]).owes
    decreases m
  {
    ProgressNext(p, log, m - 1);
    if k + 1 < m { OwedUntil(p, log, k, m - 1); }
  }

  lemma {:induction false} WritesBeforeNext(p: Protocol, log: seq<Note>, k: nat, m: nat)
    requires GoesOn(log, k, m) && WatchProgress(p, log).Doing?
    ensures WrittenBetween(log, k, m)
    decreases m
  {
    if x :| k < x < m && log[x].Began? {
      WritesBeforeNext(p, log, k, x);
      var w :| k < w < x && log[w] == Written;
    } else if !WrittenBetween(log, k, m) {
      ProgressNext(p, log, m);
      OwedUntil(p, log, k, m);
    }
  }

  lemma SegmentSplits(p: Protocol, log: seq<Note>, i: nat, j: nat)
    requires WatchProgress(p, log).Doing? && SameCode(log, i, j)
    ensures Splits(WatchProgress(p, log[..j]), Commands(log[i + 1..j]), CodeAt(p, log, i))
  {
    var head, after := log[..i + 1], log[i + 1..j];
    assert log[..j] == head + after;
    ProgressPrefix(p, log, j);
    CodeIsEntered(p, log, i);
    assert forall k | 0 <= k < |after| :: after[k] == log[i + 1 + k];
    CodeSplits(p, head, after, CodeAt(p, log, i));
  }

  lemma FirstPart(done: seq<Command>, rest: Code)
    ensures done <= done + rest && done + [] == done
  {
  }

  lemma SegmentTakenWell(p: Protocol, log: seq<Note>, i: nat, j: nat)
    requires WatchProgress(p, log).Doing? && SameCode(log, i, j)
    ensures InOrder(p, log, i, j) && (j < |log| && log[j] == Failing(Success) ==> Complete(p, log, i, j))
  {
    SegmentSplits(p, log, i, j);
    FirstPart(Commands(log[i + 1..j]), WatchProgress(p, log[..j]).rest);
    if j < |log| { ProgressNext(p, log, j); }
  }

  lemma CodeTakenWell(p: Protocol, log: seq<Note>)
    requires WatchProgress(p, log).Doing?
    ensures CodeDiscipline(p, log)
  {
    forall i, j: nat | 0 <= i && SameCode(log, i, j)
      ensures InOrder(p, log, i, j) && (j < |log| && log[j] == Failing(Success) ==> Complete(p, log, i, j))
    {
      SegmentTakenWell(p, log, i, j);
    }
    forall k, m: nat | 0 <= k && GoesOn(log, k, m) ensures WrittenBetween(log, k, m) {
      WritesBeforeNext(p, log, k, m);
    }
  }

  // ---- What every function keeps ----

  /** The code left is what the trace says. */
  predicate OnTrack(p: Protocol, c: Core) {
    var g := ProgressOf(p, c.trace);
    g.Doing? && g.rest == c.code
  }

  function Owes(p: Protocol, c: Core): bool { ProgressOf(p, c.trace).Doing? && ProgressOf(p, c.trace).owes }

  /** An output that is not written yet waits for the lock and for nothing else. */
  predicate Kept(p: Protocol, c: Core) {
    OnTrack(p, c) && (Owes(p, c) ==> c.bus.lockPending && !c.bus.writePending && !c.bus.waitPending)
  }

  lemma FinishProgress(env: Env, c: Core, result: Result)
    requires RunFine(c) && OnTrack(env.protocol, c)
    requires FinishStatus(c, result) == Success ==>
               !Owes(env.protocol, c) && (c.code == [] || ProgressOf(env.protocol, c.trace).ended)
    ensures Kept(env.protocol, Finish(env, c, result))
    decreases Handlers(c), |c.code|, 0, 1
  {
    var status := FinishStatus(c, result);
    var d := Record(c, status);
    assert ProgressOf(env.protocol, d.trace) == ProgressAfter(env.protocol, ProgressOf(env.protocol, c.trace), Failing(status));
    if Handlers(c) == 0 {
      ReportProgress(env.protocol, d, if status == Success then c.runningHandler else status);
    } else {
      HandleProgress(env, d, status);
    }
  }

  lemma ReportProgress(p: Protocol, c: Core, status: Result)
    requires RunFine(c) && c.activeCommand == End && Kept(p, c)
    requires !c.flags.initRun && RunOf(c.trace).failed ==> status != Success
    ensures Kept(p, Report(c, status))
  {
    assert ProgressOf(p, Unlock(c).trace) == ProgressOf(p, c.trace);
  }

  lemma HandleProgress(env: Env, c: Core, status: Result)
    requires RunFine(c) && c.activeCommand == End && !c.flags.initRun && !RunOf(c.trace).handled && c.runningHandler == status
    requires Kept(env.protocol, c) && !Owes(env.protocol, c) && ProgressOf(env.protocol, c.trace).error == status
    ensures Kept(env.protocol, HandleFirst(env, c, status))
    decreases if HasHandler(status) then 1 else 0, 0, 0, 0
  {
    var (d, handler) := FindHandler(env, c, status);
    if handler.Some? {
      assert HandlerCode(env.protocol, status) == handler && d.trace == c.trace;
      EvalProgress(env, Tell(d, Handling).(code := handler.value));
    } else {
      ReportProgress(env.protocol, d, status);
    }
  }

  lemma EvalProgress(env: Env, c: Core)
    requires RunFine(c) && Kept(env.protocol, c)
    ensures Kept(env.protocol, Eval(env, c))
    decreases Handlers(c), |c.code|, 0, 2
  {
    if !BusPending(c) {
      if c.code == [] {
        FinishProgress(env, c.(activeCommand := End), Success);
      } else {
        EvalActiveProgress(env, Begun(c));
      }
    }
  }

  /** A command was just taken. */
  predicate JustBegun(p: Protocol, c: Core) {
    && OnTrack(p, c) && !BusPending(c)
    && (Owes(p, c) <==> c.activeCommand == Out)
    && (c.activeCommand == End ==> ProgressOf(p, c.trace).ended)
  }

  lemma EvalActiveProgress(env: Env, c: Core)
    requires RunFine(c) && JustBegun(env.protocol, c)
    ensures Kept(env.protocol, EvalActive(env, c))
    decreases Handlers(c), |c.code|, Backlog(c), 11
  {
    match c.activeCommand
    case Out => EvalOutProgress(env, c);
    case In => EvalInProgress(env, c);
    case Wait =>
    case Event(_) => EvalEventProgress(env, c);
    case Exec => EvalExecProgress(env, c);
    case Connect =>
    case Disconnect => FinishProgress(env, Asked(c), Fault);
    case End => FinishProgress(env, c, Success);
    case Illegal => FinishProgress(env, Forgotten(c), Fault);
  }

  lemma EvalExecProgress(env: Env, c: Core)
    requires RunFine(c) && Kept(env.protocol, c) && c.activeCommand == Exec
    ensures Kept(env.protocol, StreamMachine.EvalExec(env, c))
    decreases Handlers(c), |c.code|, 0, 3
  {
    if Heard(env, c).yes {
      assert ProgressOf(env.protocol, Unlock(c).trace) == ProgressOf(env.protocol, c.trace);
    } else {
      FinishProgress(env, Asked(c), FormatError);
    }
  }

  // ---- out ----

  lemma EvalOutProgress(env: Env, c: Core)
    requires RunFine(c) && OnTrack(env.protocol, c) && !BusPending(c) && c.activeCommand == Out
    ensures Kept(env.protocol, StreamMachine.EvalOut(env, c))
    decreases Handlers(c), |c.code|, 0, 10
  {
    if Heard(env, c).yes { SendProgress(env, Prepared(Emptied(c))); } else { FinishProgress(env, Emptied(c), FormatError); }
  }

  lemma SendProgress(env: Env, c: Core)
    requires RunFine(c) && OnTrack(env.protocol, c) && !BusPending(c) && c.activeCommand == Out
    ensures Kept(env.protocol, Send(env, c))
    decreases Handlers(c), |c.code|, 0, 9
  {
    if c.bus.owner {
      WriteRequestProgress(env, Writing(c));
    } else {
      AskForBusProgress(env, c);
    }
  }

  lemma AskForBusProgress(env: Env, c: Core)
    requires RunFine(c) && OnTrack(env.protocol, c) && !BusPending(c) && c.activeCommand == Out && !c.bus.owner
    ensures Kept(env.protocol, AskForBus(env, c))
    decreases Handlers(c), |c.code|, 0, 8
  {
    var l := Locking(c, true);
    LockProgress(env, Asked(l), Heard(env, l).status);
    var (d, accepted) := LockRequest(env, l);
    if !accepted { FinishProgress(env, Locking(d, false), Offline); }
  }

  lemma LockProgress(env: Env, c: Core, status: IoStatus)
    requires RunFine(c) && Kept(env.protocol, c)
    ensures Kept(env.protocol, StreamMachine.LockCallback(env, c, status))
    decreases Handlers(c), |c.code|, 0, 6
  {
    if !c.flags.aborted && c.bus.lockPending {
      if status == IoSuccess {
        WriteFirstProgress(env, Owning(c));
      } else {
        FinishProgress(env, Locking(c, false), if status == IoTimeout || status == IoFault then LockTimeout else Fault);
      }
    }
  }

  lemma WriteFirstProgress(env: Env, c: Core)
    requires RunFine(c) && OnTrack(env.protocol, c) && c.bus.owner
    ensures Kept(env.protocol, WriteFirst(env, c))
    decreases Handlers(c), |c.code|, 0, 5
  {
    var d := Writing(c);
    WriteRequestProgress(env, d);
    FinishProgress(env, Asked(Tell(d, Written)), Fault);
  }

  lemma WriteRequestProgress(env: Env, c: Core)
    requires RunFine(c) && OnTrack(env.protocol, c) && c.bus.owner
    ensures Kept(env.protocol, WriteRequest(env, c).0)
    decreases Handlers(c), |c.code|, 0, 4
  {
    WriteProgress(env, Asked(Tell(c, Written)), Heard(env, c).status);
  }

  lemma WriteProgress(env: Env, c: Core, status: IoStatus)
    requires RunFine(c) && Kept(env.protocol, c)
    ensures Kept(env.protocol, StreamMachine.WriteCallback(env, c, status))
    decreases Handlers(c), |c.code|, 0, 3
  {
    if !c.flags.aborted && c.bus.writePending {
      var d := c.(bus := c.bus.(writePending := false));
      if status == IoSuccess { EvalProgress(env, d); } else { FinishProgress(env, d, WriteTimeout); }
    }
  }

  // ---- in ----

  lemma EvalInProgress(env: Env, c: Core)
    requires RunFine(c) && Kept(env.protocol, c)
    ensures Kept(env.protocol, StreamMachine.EvalIn(env, c))
    decreases Handlers(c), |c.code|, Backlog(c), 8
  {
    var d := c.(flags := c.flags.(acceptInput := true));
    if d.input.unparsed {
      ReadProgress(env, d, d.lastInputStatus, []);
      var (e, more) := ReadCallback(env, d, d.lastInputStatus, []);
      if more != 0 { AskProgress(env, e); }
    } else {
      AskProgress(env, d);
    }
  }

  lemma AskProgress(env: Env, c: Core)
    requires RunFine(c) && Kept(env.protocol, c)
    ensures Kept(env.protocol, AskForInput(env, c))
    decreases Handlers(c), |c.code|, 0, 7
  {
    var a := Heard(env, c);
    if !c.flags.asyncMode && a.yes && a.now { ReadProgress(env, Asked(c), a.status, a.chunk); }
  }

  lemma ReadProgress(env: Env, c: Core, status: IoStatus, chunk: Bytes)
    requires RunFine(c) && Kept(env.protocol, c)
    ensures Kept(env.protocol, ReadCallback(env, c, status, chunk).0)
    decreases Handlers(c), |c.code|, if c.flags.asyncMode then |c.input.buffer| + |chunk| + 1 else 0, 6
  {
    var d := c.(lastInputStatus := status);
    if !d.flags.aborted && d.flags.acceptInput {
      if status == IoNoReply {
        NoReplyProgress(env, d);
      } else if status == IoFault {
        FinishProgress(env, d, Fault);
      } else {
        AppendProgress(env, d, chunk);
      }
    }
  }

  lemma AppendProgress(env: Env, c: Core, chunk: Bytes)
    requires RunFine(c) && Kept(env.protocol, c)
    ensures Kept(env.protocol, AppendInput(env, c, chunk).0)
    decreases Handlers(c), |c.code|, if c.flags.asyncMode then |c.input.buffer| + |chunk| + 1 else 0, 5
  {
    var config, active, status := env.protocol.input, c.activeCommand == In, c.lastInputStatus;
    ReceiveIsSensible(config, c.input, active, status, chunk);
    TakeInputProgress(env, Tell(c, Gained(chunk)), Receive(config, c.input, active, status, chunk), |c.input.buffer| + |chunk|);
  }

  lemma NoReplyProgress(env: Env, c: Core)
    requires RunFine(c) && Kept(env.protocol, c)
    ensures Kept(env.protocol, NoReply(env, c))
    decreases Handlers(c), |c.code|, if c.flags.asyncMode then |c.input.buffer| + 1 else 0, 3
  {
    if !c.flags.asyncMode {
      FinishProgress(env, Dropping(c, c.input.(buffer := [])), ReplyTimeout);
    } else if !c.input.unparsed {
      EvalInProgress(env, c);
    }
  }

  lemma TakeInputProgress(env: Env, c: Core, o: Outcome, size: nat)
    requires RunFine(c) && Kept(env.protocol, c) && Sensible(env.protocol.input, c.activeCommand == In, size, o)
    ensures Kept(env.protocol, TakeInput(env, c, o, size).0)
    decreases Handlers(c), |c.code|, if c.flags.asyncMode then size + 1 else 0, 4
  {
    if o.Line? { TakeLineProgress(env, c, o, size); }
  }

  lemma TakeLineProgress(env: Env, c: Core, o: Outcome, size: nat)
    requires RunFine(c) && Kept(env.protocol, c) && Sensible(env.protocol.input, c.activeCommand == In, size, o) && o.Line?
    ensures Kept(env.protocol, TakeInput(env, c, o, size).0)
    decreases Handlers(c), |c.code|, if c.flags.asyncMode then size + 1 else 0, 3, 1
  {
    if !o.ended && c.flags.asyncMode {
      EvalInProgress(env, Dropping(c, o.pending));
    } else {
      EvalLineProgress(env, Tell(c.(input := o.pending), Parsed(o.text, c.lastInputStatus)), o.status);
    }
  }

  lemma EvalLineProgress(env: Env, c: Core, status: IoStatus)
    requires RunFine(c) && Kept(env.protocol, c)
    ensures Kept(env.protocol, EvalLine(env, c, status))
    decreases Handlers(c), |c.code|, if c.flags.asyncMode then Backlog(c) + 1 else 0, 3, 0
  {
    var d := Asked(c);
    if status == IoTimeout {
      FinishProgress(env, d, ReadTimeout);
    } else if Heard(env, c).yes {
      EvalProgress(env, d);
    } else if c.flags.asyncMode {
      EvalInProgress(env, d);
    } else {
      FinishProgress(env, d, ScanError);
    }
  }

  // ---- event ----

  lemma EvalEventProgress(env: Env, c: Core)
    requires RunFine(c) && Kept(env.protocol, c) && c.activeCommand.Event?
    ensures Kept(env.protocol, EvalEvent(env, c))
    decreases Handlers(c), |c.code|, 0, 4
  {
    EventProgress(env, Attentive(c), Heard(env, c).status);
  }

  lemma EventProgress(env: Env, c: Core, status: IoStatus)
    requires RunFine(c) && Kept(env.protocol, c)
    ensures Kept(env.protocol, EventCallback(env, c, status))
    decreases Handlers(c), |c.code|, 0, 3
  {
    if !c.flags.aborted && c.flags.acceptEvent {
      var d := Listening(c, false);
      if status == IoTimeout {
        FinishProgress(env, d, ReplyTimeout);
      } else if status == IoSuccess {
        EvalProgress(env, d);
      } else {
        FinishProgress(env, d, Fault);
      }
    }
  }

  // ---- Calls from outside ----

  lemma StartProgress(env: Env, c: Core, mode: StartMode)
    requires RunFine(c) && Kept(env.protocol, c)
    ensures Kept(env.protocol, StartProtocol(env, c, mode))
  {
    var d, code := Cleared(env, c, mode), ModeCode(env.protocol, mode);
    if code.Some? { EvalProgress(env, d.(code := code.value, runningHandler := Success)); }
  }

  lemma CompletedProgress(env: Env, c: Core, status: IoStatus)
    requires RunFine(c) && Kept(env.protocol, c)
    ensures Kept(env.protocol, Completed(env, c, status))
  {
    if status == IoSuccess { EvalProgress(env, c); } else { FinishProgress(env, c, Fault); }
  }

  lemma RespondProgress(env: Env, c: Core, call: Call)
    requires RunFine(c) && Kept(env.protocol, c)
    ensures Kept(env.protocol, Respond(env, c, call))
  {
    match call
    case Start(mode) => StartProgress(env, c, mode);
    case ConnectAnswer(status) => ConnectProgress(env, c, status);
    case DisconnectAnswer(status) => DisconnectProgress(env, c, status);
    case _ => AnswerProgress(env, c, call);
  }

  lemma ConnectProgress(env: Env, c: Core, status: IoStatus)
    requires RunFine(c) && Kept(env.protocol, c)
    ensures Kept(env.protocol, ConnectCallback(env, c, status))
  {
    StartProgress(env, c, StartInit);
    CompletedProgress(env, c, status);
  }

  lemma DisconnectProgress(env: Env, c: Core, status: IoStatus)
    requires RunFine(c) && Kept(env.protocol, c)
    ensures Kept(env.protocol, DisconnectCallback(env, c, status))
  {
    FinishProgress(env, Forgotten(c), Offline);
    CompletedProgress(env, c, status);
  }

  lemma AnswerProgress(env: Env, c: Core, call: Call)
    requires RunFine(c) && Kept(env.protocol, c) && !call.Start? && !call.ConnectAnswer? && !call.DisconnectAnswer?
    ensures Kept(env.protocol, Answered(env, c, call))
  {
    match call
    case LockAnswer(status) => LockProgress(env, c, status);
    case WriteAnswer(status) => WriteProgress(env, c, status);
    case ReadAnswer(status, chunk) => ReadProgress(env, c, status, chunk);
    case EventAnswer(status) => EventProgress(env, c, status);
    case Timer => TimerProgress(env, c);
    case ExecAnswer(status) => CompletedProgress(env, c, status);
    case AbortRun => FinishProgress(env, c, Abort);
  }

  lemma TimerProgress(env: Env, c: Core)
    requires RunFine(c) && Kept(env.protocol, c)
    ensures Kept(env.protocol, TimerCallback(env, c))
  {
    if c.bus.waitPending { EvalProgress(env, c.(bus := c.bus.(waitPending := false))); }
  }

  lemma {:induction false} AfterProgress(env: Env, c: Core, calls: seq<Call>)
    requires RunFine(c) && Kept(env.protocol, c)
    ensures Kept(env.protocol, After(env, c, calls))
    decreases |calls|
  {
    if calls != [] {
      RespondProgress(env, c, calls[0]);
      AfterProgress(env, Respond(env, c, calls[0]), calls[1..]);
    }
  }

  /** For every protocol, every bus and every sequence of calls: commands are
      begun in the order of the code, each error is followed by its own handler,
      success is only reported at the end, and outputs are written on the way. */
  lemma CommandsInEveryRun(env: Env, calls: seq<Call>)
    ensures var c := After(env, INITIAL, calls);
            && CodeDiscipline(env.protocol, Log(c.trace))
            && WatchProgress(env.protocol, Log(c.trace)).Doing? && WatchProgress(env.protocol, Log(c.trace)).rest == c.code
  {
    var c := After(env, INITIAL, calls);
    AfterProgress(env, INITIAL, calls);
    ProgressIsWatched(env.protocol, c.trace);
    CodeTakenWell(env.protocol, Log(c.trace));
  }

  // ---- The first error ----

  /** The handler is entered with this code. */
  function Entered(c: Core, error: Result, handler: Code): (d: Core)
    requires RunFine(c) && Handlers(c) == 1 && HasHandler(error)
    ensures RunFine(d)
  {
    Tell(Record(c, error), Handling).(code := handler)
  }

  /** A first error outside @init evaluates its own handler, field by field of
      the protocol; a mismatch handler that starts with `in` goes on behind it if
      the old line matches, and otherwise the mismatch is reported. */
  lemma FirstErrorHandled(env: Env, c: Core)
    requires RunFine(c) && Handlers(c) == 1
    ensures Handles(env, c, WriteTimeout, env.protocol.onWriteTimeout)
    ensures Handles(env, c, ReplyTimeout, env.protocol.onReplyTimeout)
    ensures Handles(env, c, ReadTimeout, env.protocol.onReadTimeout)
    ensures MismatchHandled(env, c)
  {
    HandlesError(env, c, WriteTimeout, env.protocol.onWriteTimeout);
    HandlesError(env, c, ReplyTimeout, env.protocol.onReplyTimeout);
    HandlesError(env, c, ReadTimeout, env.protocol.onReadTimeout);
    HandlesMismatch(env, c);
  }

  predicate Handles(env: Env, c: Core, error: Result, handler: Code)
    requires RunFine(c) && Handlers(c) == 1 && HasHandler(error)
  {
    Finish(env, c, error) == Eval(env, Entered(c, error, handler))
  }

  lemma HandlesError(env: Env, c: Core, error: Result, handler: Code)
    requires RunFine(c) && Handlers(c) == 1 && (error == WriteTimeout || error == ReplyTimeout || error == ReadTimeout)
    requires HandlerCode(env.protocol, error) == Some(handler)
    ensures Handles(env, c, error, handler)
  {
    var r := Record(c, error);
    assert Finish(env, c, error) == HandleFirst(env, r, error);
    assert FindHandler(env, r, error) == (r, Some(handler));
    assert HandleFirst(env, r, error) == StartHandler(env, r, handler);
  }

  /** What `FirstErrorHandled` says of a mismatch. */
  predicate MismatchHandled(env: Env, c: Core)
    requires RunFine(c) && Handlers(c) == 1
  {
    var code := env.protocol.onMismatch;
    if code == [] || code[0] != In then Handles(env, c, ScanError, code)
    else if Heard(env, c).yes then Finish(env, c, ScanError) == Eval(env, Entered(Asked(c), ScanError, code[1..]))
    else Ended(Finish(env, c, ScanError), ScanError)
  }

  lemma HandlesMismatch(env: Env, c: Core)
    requires RunFine(c) && Handlers(c) == 1
    ensures MismatchHandled(env, c)
  {
    var r, code := Record(c, ScanError), env.protocol.onMismatch;
    assert Finish(env, c, ScanError) == HandleFirst(env, r, ScanError);
    if code != [] && code[0] == In { ParsesAgain(env, c); } else { HandlesPlainMismatch(env, c); }
  }

  lemma HandlesPlainMismatch(env: Env, c: Core)
    requires RunFine(c) && Handlers(c) == 1 && (env.protocol.onMismatch == [] || env.protocol.onMismatch[0] != In)
    ensures HandleFirst(env, Record(c, ScanError), ScanError) == Eval(env, Entered(c, ScanError, env.protocol.onMismatch))
  {
    var r, code := Record(c, ScanError), env.protocol.onMismatch;
    assert FindHandler(env, r, ScanError) == (r, Some(code));
    assert HandleFirst(env, r, ScanError) == StartHandler(env, r, code);
  }

  lemma ParsesAgain(env: Env, c: Core)
    requires RunFine(c) && Handlers(c) == 1 && env.protocol.onMismatch != [] && env.protocol.onMismatch[0] == In
    ensures var d := HandleFirst(env, Record(c, ScanError), ScanError);
            if Heard(env, c).yes then d == Eval(env, Entered(Asked(c), ScanError, env.protocol.onMismatch[1..]))
            else Ended(d, ScanError)
  {
    var r := Record(c, ScanError);
    if Heard(env, c).yes { GoesOnBehindIn(env, c); } else { assert HandleFirst(env, r, ScanError) == Report(Asked(r), ScanError); }
  }

  lemma GoesOnBehindIn(env: Env, c: Core)
    requires RunFine(c) && Handlers(c) == 1 && env.protocol.onMismatch != [] && env.protocol.onMismatch[0] == In
    requires Heard(env, c).yes
    ensures HandleFirst(env, Record(c, ScanError), ScanError)
         == Eval(env, Entered(Asked(c), ScanError, env.protocol.onMismatch[1..]))
  {
    var r, code := Record(c, ScanError), env.protocol.onMismatch[1..];
    assert FindHandler(env, r, ScanError) == (Asked(r), Some(code));
    var h := Tell(Asked(r), Handling).(code := code);
    assert h == Entered(Asked(c), ScanError, code);
    assert HandleFirst(env, r, ScanError) == StartHandler(env, Asked(r), code) == Eval(env, h);
  }

  // ---- Each failure has its own error ----

  /** The error of a refused or failed request. */
  function OwnError(c: Core, call: Call): Option<Result> {
    match call
    case AbortRun => Some(Abort)
    case _ => if c.flags.aborted then None else OwnAnswerError(c, call)
  }

  function OwnAnswerError(c: Core, call: Call): Option<Result> {
    match call
    case LockAnswer(s) =>
      if !c.bus.lockPending || s == IoSuccess then None else Some(if s == IoTimeout || s == IoFault then LockTimeout else Fault)
    case WriteAnswer(s) => if !c.bus.writePending || s == IoSuccess then None else Some(WriteTimeout)
    case ReadAnswer(s, _) =>
      if !c.flags.acceptInput then None
      else if s == IoFault then Some(Fault)
      else if s == IoNoReply && !c.flags.asyncMode then Some(ReplyTimeout)
      else None
    case EventAnswer(s) =>
      if !c.flags.acceptEvent || s == IoSuccess then None else Some(if s == IoTimeout then ReplyTimeout else Fault)
    case ExecAnswer(s) => if c.activeCommand != Exec || s == IoSuccess then None else Some(Fault)
    case DisconnectAnswer(s) =>
      if c.activeCommand != Disconnect then Some(Offline) else if s == IoSuccess then None else Some(Fault)
    case _ => None
  }

  /** The first failure of a run that is not @init is remembered as its own error,
      which is what the run reports in the end. */
  lemma FirstErrorKept(env: Env, c: Core, call: Call)
    requires RunFine(c) && Handlers(c) == 1 && OwnError(c, call).Some?
    ensures Respond(env, c, call).runningHandler == OwnError(c, call).value
  {
    match call
    case LockAnswer(s) => BusErrorKept(env, c, call);
    case WriteAnswer(s) => BusErrorKept(env, c, call);
    case ReadAnswer(s, chunk) => BadReadKept(env, c, s, chunk);
    case EventAnswer(s) => BusErrorKept(env, c, call);
    case DisconnectAnswer(s) => DisconnectKept(env, c, s);
    case ExecAnswer(s) => assert Respond(env, c, call) == Completed(env, c, s);
    case AbortRun => assert Respond(env, c, call) == Finish(env, c, Abort);
  }

  lemma BusErrorKept(env: Env, c: Core, call: Call)
    requires RunFine(c) && Handlers(c) == 1 && OwnError(c, call).Some? && (call.LockAnswer? || call.WriteAnswer? || call.EventAnswer?)
    ensures Respond(env, c, call).runningHandler == OwnError(c, call).value
  {
    var d := if call.LockAnswer? then Locking(c, false)
             else if call.EventAnswer? then Listening(c, false)
             else c.(bus := c.bus.(writePending := false));
    assert Respond(env, c, call) == Finish(env, d, OwnError(c, call).value);
  }

  lemma DisconnectKept(env: Env, c: Core, status: IoStatus)
    requires RunFine(c) && Handlers(c) == 1 && OwnError(c, DisconnectAnswer(status)).Some?
    ensures Respond(env, c, DisconnectAnswer(status)).runningHandler == OwnError(c, DisconnectAnswer(status)).value
  {
    var d := DisconnectCallback(env, c, status);
    if c.activeCommand != Disconnect {
      assert d == Disconnected(env, c) == Finish(env, Forgotten(c), Offline);
    } else {
      assert d == Completed(env, c, status);
    }
  }

  lemma BadReadKept(env: Env, c: Core, status: IoStatus, chunk: Bytes)
    requires RunFine(c) && Handlers(c) == 1 && OwnError(c, ReadAnswer(status, chunk)).Some?
    ensures Respond(env, c, ReadAnswer(status, chunk)).runningHandler == if status == IoFault then Fault else ReplyTimeout
  {
    var d := c.(lastInputStatus := status);
    if status == IoFault {
      assert ReadCallback(env, c, status, chunk) == (Finish(env, d, Fault), 0);
    } else {
      assert ReadCallback(env, c, status, chunk) == (NoReply(env, d), 0);
      assert NoReply(env, d) == Finish(env, Dropping(d, d.input.(buffer := [])), ReplyTimeout);
    }
  }

  /** So are an incomplete line and a line that does not match. */
  lemma BadLineKept(env: Env, c: Core, status: IoStatus, chunk: Bytes)
    requires RunFine(c) && Handlers(c) == 1 && Reading(c) && !c.flags.asyncMode
    requires status == IoSuccess || status == IoEnd || status == IoTimeout
    ensures var o, d := Receive(env.protocol.input, c.input, true, status, chunk), Respond(env, c, ReadAnswer(status, chunk));
            o.Line? && (o.status == IoTimeout || !Heard(env, c).yes) ==>
              d.runningHandler == if o.status == IoTimeout then ReadTimeout else ScanError
  {
    var e := c.(lastInputStatus := status);
    assert ReadCallback(env, c, status, chunk) == AppendInput(env, e, chunk);
    BadLineAppended(env, e, chunk);
  }

  lemma BadLineAppended(env: Env, c: Core, chunk: Bytes)
    requires RunFine(c) && Handlers(c) == 1 && c.activeCommand == In && !c.flags.asyncMode
    ensures var o := Receive(env.protocol.input, c.input, true, c.lastInputStatus, chunk);
            o.Line? && (o.status == IoTimeout || !Heard(env, c).yes) ==>
              AppendInput(env, c, chunk).0.runningHandler == if o.status == IoTimeout then ReadTimeout else ScanError
  {
    var o, size := Receive(env.protocol.input, c.input, true, c.lastInputStatus, chunk), |c.input.buffer| + |chunk|;
    ReceiveIsSensible(env.protocol.input, c.input, true, c.lastInputStatus, chunk);
    assert AppendInput(env, c, chunk) == TakeInput(env, Tell(c, Gained(chunk)), o, size);
    if o.Line? && (o.status == IoTimeout || !Heard(env, c).yes) { BadLineTaken(env, Tell(c, Gained(chunk)), o, size); }
  }

  lemma BadLineTaken(env: Env, c: Core, o: Outcome, size: nat)
    requires RunFine(c) && Handlers(c) == 1 && !c.flags.asyncMode && Sensible(env.protocol.input, c.activeCommand == In, size, o)
    requires o.Line? && (o.status == IoTimeout || !Heard(env, c).yes)
    ensures TakeInput(env, c, o, size).0.runningHandler == if o.status == IoTimeout then ReadTimeout else ScanError
  {
    var d := Tell(c.(input := o.pending), Parsed(o.text, c.lastInputStatus));
    assert TakeInput(env, c, o, size) == (EvalLine(env, d, o.status), 0);
    assert EvalLine(env, d, o.status) == Finish(env, Asked(d), if o.status == IoTimeout then ReadTimeout else ScanError);
  }

  /** A line that is incomplete or does not match, and nothing after it. */
  predicate BadLine(env: Env, c: Core, o: Outcome) {
    o.Line? && o.pending == NOTHING && (!o.ended || (o.status != IoTimeout && !Heard(env, c).yes))
  }

  predicate WaitsAgain(c: Core, d: Core) {
    d.activeCommand == In && d.flags.acceptInput && d.code == c.code && d.input == NOTHING && d.runningHandler == c.runningHandler
  }

  /** In asynchronous mode they are no errors: the same `in` waits again. */
  lemma BadLineRestarts(env: Env, c: Core, status: IoStatus, chunk: Bytes)
    requires RunFine(c) && Reading(c) && c.flags.asyncMode
    requires status == IoSuccess || status == IoEnd || status == IoTimeout
    ensures BadLine(env, c, Receive(env.protocol.input, c.input, true, status, chunk)) ==>
              WaitsAgain(c, Respond(env, c, ReadAnswer(status, chunk)))
  {
    var e := c.(lastInputStatus := status);
    assert ReadCallback(env, c, status, chunk) == AppendInput(env, e, chunk);
    if BadLine(env, c, Receive(env.protocol.input, c.input, true, status, chunk)) { AppendRestarts(env, e, chunk); }
  }

  lemma AppendRestarts(env: Env, c: Core, chunk: Bytes)
    requires RunFine(c) && c.activeCommand == In && c.flags.asyncMode
    requires BadLine(env, c, Receive(env.protocol.input, c.input, true, c.lastInputStatus, chunk))
    ensures WaitsAgain(c, AppendInput(env, c, chunk).0)
  {
    var o, size := Receive(env.protocol.input, c.input, true, c.lastInputStatus, chunk), |c.input.buffer| + |chunk|;
    ReceiveIsSensible(env.protocol.input, c.input, true, c.lastInputStatus, chunk);
    var d := Tell(c, Gained(chunk));
    assert AppendInput(env, c, chunk) == TakeInput(env, d, o, size);
    BadLineTakenAsync(env, d, o, size);
  }

  lemma BadLineTakenAsync(env: Env, c: Core, o: Outcome, size: nat)
    requires RunFine(c) && c.activeCommand == In && c.flags.asyncMode && BadLine(env, c, o)
    requires Sensible(env.protocol.input, true, size, o)
    ensures WaitsAgain(c, TakeInput(env, c, o, size).0)
  {
    if o.ended { MismatchRestarts(env, c, o, size); } else { PartialLineRestarts(env, c, o, size); }
  }

  lemma MismatchRestarts(env: Env, c: Core, o: Outcome, size: nat)
    requires RunFine(c) && c.activeCommand == In && c.flags.asyncMode && BadLine(env, c, o) && o.ended
    requires Sensible(env.protocol.input, true, size, o)
    ensures WaitsAgain(c, TakeInput(env, c, o, size).0)
  {
    var e := Tell(c.(input := NOTHING), Parsed(o.text, c.lastInputStatus));
    assert TakeInput(env, c, o, size) == (EvalLine(env, e, o.status), 0);
    assert EvalLine(env, e, o.status) == StreamMachine.EvalIn(env, Asked(e));
    RestartWaits(env, Asked(e));
  }

  lemma PartialLineRestarts(env: Env, c: Core, o: Outcome, size: nat)
    requires RunFine(c) && c.activeCommand == In && c.flags.asyncMode && BadLine(env, c, o) && !o.ended
    requires Sensible(env.protocol.input, true, size, o)
    ensures WaitsAgain(c, TakeInput(env, c, o, size).0)
  {
    var e := Dropping(c, NOTHING);
    assert TakeInput(env, c, o, size) == (StreamMachine.EvalIn(env, e), 0);
    RestartWaits(env, e);
  }

  lemma RestartWaits(env: Env, c: Core)
    requires RunFine(c) && c.flags.asyncMode && !c.input.unparsed
    ensures StreamMachine.EvalIn(env, c) == Asked(Unlock(c.(flags := c.flags.(acceptInput := true))))
  {
  }

  /** A refused write, disconnect or shell command. */
  lemma RefusedKept(env: Env, c: Core)
    requires RunFine(c) && Handlers(c) == 1
    ensures c.bus.owner && !Heard(env, c).yes ==> WriteFirst(env, c).runningHandler == Fault
    ensures !BusPending(c) && c.activeCommand == Disconnect && !Heard(env, c).yes ==> EvalActive(env, c).runningHandler == Fault
    ensures c.activeCommand == Exec && !Heard(env, c).yes ==> StreamMachine.EvalExec(env, c).runningHandler == FormatError
  {
    if c.bus.owner && !Heard(env, c).yes { WriteRefusedKept(env, c); }
    if !BusPending(c) && c.activeCommand == Disconnect && !Heard(env, c).yes { DisconnectRefusedKept(env, c); }
    if c.activeCommand == Exec && !Heard(env, c).yes { ExecRefusedKept(env, c); }
  }

  lemma DisconnectRefusedKept(env: Env, c: Core)
    requires RunFine(c) && Handlers(c) == 1 && !BusPending(c) && c.activeCommand == Disconnect && !Heard(env, c).yes
    ensures EvalActive(env, c).runningHandler == Fault
  {
    assert EvalActive(env, c) == Finish(env, Asked(c), Fault);
  }

  lemma ExecRefusedKept(env: Env, c: Core)
    requires RunFine(c) && Handlers(c) == 1 && c.activeCommand == Exec && !Heard(env, c).yes
    ensures StreamMachine.EvalExec(env, c).runningHandler == FormatError
  {
    assert StreamMachine.EvalExec(env, c) == Finish(env, Asked(c), FormatError);
  }

  lemma WriteRefusedKept(env: Env, c: Core)
    requires RunFine(c) && Handlers(c) == 1 && c.bus.owner && !Heard(env, c).yes
    ensures WriteFirst(env, c).runningHandler == Fault
  {
    var d := Asked(Tell(Writing(c), Written));
    assert WriteRequest(env, Writing(c)) == (d, false);
    assert WriteFirst(env, c) == Finish(env, d, Fault);
  }

  /** An output that cannot be formatted, or whose lock request is refused. */
  lemma BadOutputKept(env: Env, c: Core)
    requires RunFine(c) && Handlers(c) == 1 && !BusPending(c) && c.activeCommand == Out
    ensures !Heard(env, c).yes ==> StreamMachine.EvalOut(env, c).runningHandler == FormatError
    ensures !c.bus.owner && !Heard(env, Locking(c, true)).yes ==> AskForBus(env, c).runningHandler == Offline
  {
  }
}
