/**
 What StreamCore does to the bus and reports to its record, as a sequence of
 notes, and two automata: one says which sequences use the bus correctly, the
 other which sequences report errors correctly.
 */
module StreamTrace {
  import opened Basics
  import LineInput

  datatype Result =
    Success | LockTimeout | WriteTimeout | ReplyTimeout | ReadTimeout | ScanError | FormatError | Abort | Fault | Offline

  /** Compiled commands without their arguments; the end of the code is `end`. */
  datatype Command = End | In | Out | Wait | Event(endless: bool) | Exec | Connect | Disconnect | Illegal

  datatype Note =
    | Started(init: bool)        // startProtocol
    | Refused                    // startProtocol, but there is no such protocol; the flags are cleared
    | Locked                     // a successful lock callback was accepted
    | Written                    // busWriteRequest
    | Unlocked                   // busUnlock
    | Failing(status: Result)    // finishProtocol was entered
    | Handling                   // an error handler was entered
    | Finished(status: Result)   // protocolFinishHook
    | Gained(bytes: Bytes)       // input was appended to the buffer
    | Parsed(line: Bytes, end: LineInput.IoStatus)   // a line was taken out to be matched, after input with this status
    | Dropped                    // the buffer was emptied
    | Began(command: Command)    // evalCommand took the next command

  datatype Bus = Free | Held | Misused

  function BusAfter(b: Bus, n: Note): Bus {
    match n
    case Locked => if b.Free? then Held else Misused
    case Written => if b.Held? then Held else Misused
    case Unlocked => if b.Held? then Free else Misused
    case _ => b
  }

  datatype Run = Run(init: bool, failed: bool, handled: bool) | Wrong

  function RunAfter(r: Run, n: Note): Run {
    if r.Wrong? then Wrong else
    match n
    case Started(init) => Run(init, false, false)
    case Refused => if r.init then Run(false, false, false) else r
    case Failing(s) => r.(failed := r.failed || s != Success)
    case Handling => if r.handled || r.init then Wrong else r.(handled := true)
    case Finished(s) => if r.failed && !r.init && s == Success then Wrong else r
    case _ => r
  }

  function WatchBus(log: seq<Note>): Bus {
    if log == [] then Free else BusAfter(WatchBus(log[..|log| - 1]), log[|log| - 1])
  }

  function WatchRun(log: seq<Note>): Run {
    if log == [] then Run(false, false, false) else RunAfter(WatchRun(log[..|log| - 1]), log[|log| - 1])
  }

  /** The notes so far; a trace only ever grows. */
  datatype Trace = Empty | Noted(before: Trace, note: Note)

  function BusOf(t: Trace): Bus { if t.Empty? then Free else BusAfter(BusOf(t.before), t.note) }

  function RunOf(t: Trace): Run { if t.Empty? then Run(false, false, false) else RunAfter(RunOf(t.before), t.note) }

  function Length(t: Trace): nat { if t.Empty? then 0 else Length(t.before) + 1 }

  function Log(t: Trace): (log: seq<Note>)
    ensures |log| == Length(t)
  {
    if t.Empty? then [] else Log(t.before) + [t.note]
  }

  lemma {:induction false} LogIsWatched(t: Trace)
    ensures WatchBus(Log(t)) == BusOf(t) && WatchRun(Log(t)) == RunOf(t)
  {
    if t.Noted? {
      LogIsWatched(t.before);
      assert Log(t)[..|Log(t)| - 1] == Log(t.before);
    }
  }

  // ---- What the bus automaton accepts ----

  lemma {:induction false} BusPrefix(log: seq<Note>, i: nat)
    requires i <= |log| && !WatchBus(log).Misused?
    ensures !WatchBus(log[..i]).Misused?
    decreases |log|
  {
    if i < |log| {
      assert log[..|log| - 1][..i] == log[..i];
      BusPrefix(log[..|log| - 1], i);
    } else {
      assert log[..i] == log;
    }
  }

  lemma BusNext(log: seq<Note>, i: nat)
    requires i < |log| && !WatchBus(log).Misused?
    ensures !WatchBus(log[..i]).Misused? && !WatchBus(log[..i + 1]).Misused?
    ensures WatchBus(log[..i + 1]) == BusAfter(WatchBus(log[..i]), log[i])
  {
    BusPrefix(log, i);
    BusPrefix(log, i + 1);
    assert log[..i + 1][..i] == log[..i];
  }

  lemma {:induction false} HeldUntil(log: seq<Note>, i: nat, j: nat)
    requires i <= j <= |log| && !WatchBus(log).Misused?
    requires forall k | i <= k < j :: log[k] != Unlocked
    ensures WatchBus(log[..i]).Held? ==> WatchBus(log[..j]).Held?
    decreases j - i
  {
    if i < j {
      BusNext(log, i);
      HeldUntil(log, i + 1, j);
    }
  }

  lemma {:induction false} FreeUntil(log: seq<Note>, i: nat, j: nat)
    requires i <= j <= |log| && !WatchBus(log).Misused?
    requires forall k | i <= k < j :: log[k] != Locked
    ensures WatchBus(log[..i]).Free? ==> WatchBus(log[..j]).Free?
    decreases j - i
  {
    if i < j {
      BusNext(log, i);
      FreeUntil(log, i + 1, j);
    }
  }

  /** Accepted locks and unlocks strictly alternate, beginning with a lock. */
  lemma LocksAlternate(log: seq<Note>, i: nat, j: nat)
    requires i < j < |log| && !WatchBus(log).Misused?
    ensures log[i] == log[j] == Locked ==> exists k :: i < k < j && log[k] == Unlocked
    ensures log[i] == log[j] == Unlocked ==> exists k :: i < k < j && log[k] == Locked
  {
    BusNext(log, i);
    BusNext(log, j);
    if log[i] == log[j] == Locked && !exists k :: i < k < j && log[k] == Unlocked {
      HeldUntil(log, i + 1, j);
    }
    if log[i] == log[j] == Unlocked && !exists k :: i < k < j && log[k] == Locked {
      FreeUntil(log, i + 1, j);
    }
  }

  /** Every write and every unlock happens under a lock that is still held. */
  lemma UnderLock(log: seq<Note>, j: nat) returns (i: nat)
    requires j < |log| && !WatchBus(log).Misused? && (log[j] == Written || log[j] == Unlocked)
    ensures i < j && log[i] == Locked && forall k | i < k < j :: log[k] != Unlocked
  {
    BusNext(log, j);
    i := LastLock(log, j);
  }

  lemma {:induction false} LastLock(log: seq<Note>, j: nat) returns (i: nat)
    requires j <= |log| && !WatchBus(log).Misused? && WatchBus(log[..j]).Held?
    ensures i < j && log[i] == Locked && forall k | i < k < j :: log[k] != Unlocked
    decreases j
  {
    assert log[..0] == [];
    if j > 0 {
      BusNext(log, j - 1);
      if log[j - 1] == Locked { i := j - 1; } else { i := LastLock(log, j - 1); }
    }
  }

  // ---- What the run automaton accepts ----

  lemma {:induction false} RunPrefix(log: seq<Note>, i: nat)
    requires i <= |log| && WatchRun(log).Run?
    ensures WatchRun(log[..i]).Run?
    decreases |log|
  {
    if i < |log| {
      assert log[..|log| - 1][..i] == log[..i];
      RunPrefix(log[..|log| - 1], i);
    } else {
      assert log[..i] == log;
    }
  }

  lemma RunNext(log: seq<Note>, i: nat)
    requires i < |log| && WatchRun(log).Run?
    ensures WatchRun(log[..i]).Run? && WatchRun(log[..i + 1]).Run?
    ensures WatchRun(log[..i + 1]) == RunAfter(WatchRun(log[..i]), log[i])
  {
    RunPrefix(log, i);
    RunPrefix(log, i + 1);
    assert log[..i + 1][..i] == log[..i];
  }

  /** Outside @init an error and a handler are remembered until the next accepted start. */
  lemma {:induction false} FailedUntil(log: seq<Note>, i: nat, j: nat)
    requires i <= j <= |log| && WatchRun(log).Run?
    requires forall k | i <= k < j :: !log[k].Started?
    ensures WatchRun(log[..i]).Run? && WatchRun(log[..j]).Run?
    ensures !WatchRun(log[..i]).init ==>
              && !WatchRun(log[..j]).init
              && (WatchRun(log[..i]).failed ==> WatchRun(log[..j]).failed)
              && (WatchRun(log[..i]).handled ==> WatchRun(log[..j]).handled)
    ensures WatchRun(log[..i]).init && (forall k | i <= k < j :: log[k] != Refused) ==> WatchRun(log[..j]).init
    decreases j - i
  {
    RunPrefix(log, j);
    if i < j {
      RunNext(log, i);
      FailedUntil(log, i + 1, j);
    }
  }

  /** The run that note `i` belongs to was started as @init, and its flags were not cleared since. */
  predicate InInitRun(log: seq<Note>, i: nat)
    requires i <= |log|
  {
    exists s :: 0 <= s < i && log[s] == Started(true) && forall k | s < k < i :: !ClearsFlags(log[k])
  }

  predicate ClearsFlags(n: Note) { n.Started? || n == Refused }

  lemma {:induction false} InitIsKnown(log: seq<Note>, i: nat) returns (s: nat)
    requires i <= |log| && WatchRun(log).Run? && WatchRun(log[..i]).Run? && WatchRun(log[..i]).init
    ensures s < i && log[s] == Started(true) && forall k | s < k < i :: !ClearsFlags(log[k])
    decreases i
  {
    assert log[..0] == [];
    if i > 0 {
      RunNext(log, i - 1);
      if log[i - 1] == Started(true) { s := i - 1; } else { s := InitIsKnown(log, i - 1); }
    }
  }

  /** After an error no later finish of the run reports success, whatever the handler does. */
  lemma ErrorIsSticky(log: seq<Note>, i: nat, j: nat)
    requires i < j < |log| && WatchRun(log).Run?
    requires log[i].Failing? && log[i].status != Success && log[j].Finished?
    requires !InInitRun(log, i) && forall k | i < k < j :: !log[k].Started?
    ensures log[j].status != Success
  {
    RunNext(log, i);
    RunNext(log, j);
    FailedUntil(log, i + 1, j);
    if WatchRun(log[..i]).init { var s := InitIsKnown(log, i); }
  }

  /** Between two handlers a run is started. */
  lemma OneHandler(log: seq<Note>, i: nat, j: nat)
    requires i < j < |log| && WatchRun(log).Run? && log[i] == log[j] == Handling
    ensures exists k :: i < k < j && log[k].Started?
  {
    RunNext(log, i);
    RunNext(log, j);
    if !exists k :: i < k < j && log[k].Started? { FailedUntil(log, i + 1, j); }
  }

  /** An @init run enters no handler. */
  lemma NoHandlerInInit(log: seq<Note>, i: nat, j: nat)
    requires i < j < |log| && WatchRun(log).Run? && log[i] == Started(true) && log[j] == Handling
    ensures exists k :: i < k < j && ClearsFlags(log[k])
  {
    RunNext(log, i);
    RunNext(log, j);
    if !exists k :: i < k < j && ClearsFlags(log[k]) {
      assert forall k | i < k < j :: !ClearsFlags(log[k]);
      FailedUntil(log, i + 1, j);
    }
  }

  // ---- The same, for whole traces ----

  ghost predicate LockedAt(log: seq<Note>, j: nat)
    requires j < |log|
  {
    exists i :: 0 <= i < j && log[i] == Locked && forall k | i < k < j :: log[k] != Unlocked
  }

  /** Accepted locks and unlocks alternate; writes and unlocks happen under a lock. */
  ghost predicate BusDiscipline(log: seq<Note>) {
    && (forall i, j | 0 <= i < j < |log| && log[i] == Locked && log[j] == Locked ::
          exists k :: i < k < j && log[k] == Unlocked)
    && (forall i, j | 0 <= i < j < |log| && log[i] == Unlocked && log[j] == Unlocked ::
          exists k :: i < k < j && log[k] == Locked)
    && (forall j | 0 <= j < |log| && (log[j] == Written || log[j] == Unlocked) :: LockedAt(log, j))
  }

  ghost predicate StickyErrors(log: seq<Note>) {
    forall i, j | 0 <= i < j < |log| && log[i].Failing? && log[i].status != Success && log[j].Finished?
                  && !InInitRun(log, i) && (forall k | i < k < j :: !log[k].Started?) ::
      log[j].status != Success
  }

  ghost predicate SingleHandler(log: seq<Note>) {
    && (forall i, j | 0 <= i < j < |log| && log[i] == Handling && log[j] == Handling ::
          exists k :: i < k < j && log[k].Started?)
    && (forall i, j | 0 <= i < j < |log| && log[i] == Started(true) && log[j] == Handling ::
          exists k :: i < k < j && ClearsFlags(log[k]))
  }

  /** A held lock is the last one and was not given back; a free bus has none. */
  lemma {:induction false} FreeMeansGivenBack(log: seq<Note>, j: nat)
    requires j < |log| && !WatchBus(log[..j]).Misused?
    ensures WatchBus(log[..j]).Held? <==> LockedAt(log, j)
    decreases j
  {
    assert log[..0] == [];
    if j > 0 {
      var b := log[..j];
      assert b[..j - 1] == log[..j - 1];
      if WatchBus(log[..j - 1]).Misused? {
        assert false;
      }
      FreeMeansGivenBack(log, j - 1);
      if log[j - 1] == Locked {
        assert LockedAt(log, j);
      } else if LockedAt(log, j) {
        var i :| 0 <= i < j && log[i] == Locked && forall k | i < k < j :: log[k] != Unlocked;
        assert i < j - 1;
        assert LockedAt(log, j - 1);
      }
    }
  }

  /** The first misuse breaks the discipline. */
  lemma {:induction false} MisuseShows(log: seq<Note>, j: nat)
    requires j <= |log| && WatchBus(log[..j]).Misused?
    ensures !BusDiscipline(log)
    decreases j
  {
    assert log[..0] == [];
    if j > 0 {
      assert log[..j][..j - 1] == log[..j - 1];
      if WatchBus(log[..j - 1]).Misused? {
        MisuseShows(log, j - 1);
      } else {
        FreeMeansGivenBack(log, j - 1);
        if log[j - 1] == Locked {
          var i :| 0 <= i < j - 1 && log[i] == Locked && forall k | i < k < j - 1 :: log[k] != Unlocked;
          assert log[i] == log[j - 1] == Locked;
        }
      }
    }
  }

  /** The automaton accepts exactly the disciplined traces. */
  lemma BusUsedWell(log: seq<Note>)
    ensures !WatchBus(log).Misused? <==> BusDiscipline(log)
  {
    if WatchBus(log).Misused? {
      assert log[..|log|] == log;
      MisuseShows(log, |log|);
    } else {
      UsedWellIsDisciplined(log);
    }
  }

  lemma UsedWellIsDisciplined(log: seq<Note>)
    requires !WatchBus(log).Misused?
    ensures BusDiscipline(log)
  {
    forall i, j | 0 <= i < j < |log|
      ensures log[i] == Locked && log[j] == Locked ==> exists k :: i < k < j && log[k] == Unlocked
      ensures log[i] == Unlocked && log[j] == Unlocked ==> exists k :: i < k < j && log[k] == Locked
    {
      LocksAlternate(log, i, j);
    }
    forall j | 0 <= j < |log| && (log[j] == Written || log[j] == Unlocked) ensures LockedAt(log, j) {
      var i := UnderLock(log, j);
    }
  }

  lemma ErrorsReportedWell(log: seq<Note>)
    requires WatchRun(log).Run?
    ensures StickyErrors(log) && SingleHandler(log)
  {
    forall i, j | 0 <= i < j < |log| && log[i].Failing? && log[i].status != Success && log[j].Finished?
                  && !InInitRun(log, i) && (forall k | i < k < j :: !log[k].Started?)
      ensures log[j].status != Success
    {
      ErrorIsSticky(log, i, j);
    }
    forall i, j | 0 <= i < j < |log| && log[i] == Handling && log[j] == Handling
      ensures exists k :: i < k < j && log[k].Started?
    {
      OneHandler(log, i, j);
    }
    forall i, j | 0 <= i < j < |log| && log[i] == Started(true) && log[j] == Handling
      ensures exists k :: i < k < j && ClearsFlags(log[k])
    {
      NoHandlerInInit(log, i, j);
    }
  }
}
