/**
 The queueLockPort handshake on top of the port scheduler. A client thread
 takes its own mutex, queues a copy of its user and waits for its own event;
 the port thread signals that event from the copy's callback and then parks on
 the client's mutex until queueUnlockPort releases it.
 */
module QueueLock {
  import opened Basics
  import opened PortScheduler
  import opened PortInvariants
  import opened PortRuns

  datatype ClientPc =
    | Idle
    | Ready(gen: nat)                   // has its mutex, copy not yet queued
    | Pending(gen: nat)                 // waits for the begin event
    | Holding(gen: nat, depth: nat)     // queueLockPort has returned success
    | Unlocking(gen: nat)               // mutex released, waits for the end event

  datatype Mutex = Free | ByClient | ByPort

  /** The queueLockPortPvt of a thread, with the auxStatus of its copy. */
  datatype Thread = Thread(pc: ClientPc, event: bool, mutex: Mutex, timedOut: bool, generation: nat)

  /** How far the port thread is inside queueLockPortCallback. */
  datatype Phase = Begin | Parked | Taken | Released | Ended

  datatype Sys = Sys(port: Port, threads: map<nat, Thread>, phase: Phase, timerDone: bool)

  const FRESH := Thread(Idle, false, Free, false, 0)
  const START := Sys(INITIAL, map[], Ended, true)

  function Get(s: Sys, t: nat): Thread { if t in s.threads then s.threads[t] else FRESH }

  function Put(s: Sys, t: nat, c: Thread): Sys { s.(threads := s.threads[t := c]) }

  datatype Move =
    | Sched(step: Step)                       // any step of the scheduler
    | LockBegin(thread: nat, dev: Device)     // first queueLockPort: take the mutex, make the copy
    | LockQueue(thread: nat)                  // queueRequest of the copy
    | LockWake(thread: nat)                   // the begin event was consumed
    | Nest(thread: nat)                       // nested queueLockPort
    | Unnest(thread: nat)                     // queueUnlockPort of a nested lock
    | UnlockBegin(thread: nat)                // outermost queueUnlockPort: release the mutex
    | UnlockWake(thread: nat)                 // the end event was consumed
    | CallbackSignals                         // the four stretches of queueLockPortCallback
    | CallbackTakes
    | CallbackReleases
    | CallbackEnds
    | TimeoutSignals                          // queueLockPortTimeoutCallback

  predicate InLockCallback(s: Sys) { s.port.pc.InCallback? && s.port.pc.user.LockCopy? }

  predicate InLockTimeout(s: Sys) { s.port.signals.timing.Some? && s.port.signals.timing.value.LockCopy? }

  /** Only queueLockPort has a reference to its copy; the timer may time it out. */
  predicate Foreign(e: Step) {
    match e
    case Attach(u, _) => u.Client?
    case Detach(u) => u.Client?
    case Queue(u, _, _) => u.Client?
    case Cancel(u) => u.Client?
    case BlockBy(u, _) => u.Client?
    case UnblockBy(u, _) => u.Client?
    case _ => true
  }

  predicate CanMove(s: Sys, m: Move) {
    match m
    case Sched(e) =>
      && Foreign(e) && Possible(s.port, e)
      && (e.Run? && InLockCallback(s) ==> s.phase.Ended?)
      && (e.TimeoutEnd? && InLockTimeout(s) ==> s.timerDone)
    case LockBegin(t, d) => Get(s, t).pc.Idle? && Get(s, t).mutex.Free?
    case LockQueue(t) => Get(s, t).pc.Ready?
    case LockWake(t) => Get(s, t).pc.Pending? && Get(s, t).event
    case Nest(t) => Get(s, t).pc.Holding?
    case Unnest(t) => Get(s, t).pc.Holding? && Get(s, t).pc.depth > 1
    case UnlockBegin(t) => Get(s, t).pc.Holding? && Get(s, t).pc.depth == 1
    case UnlockWake(t) => Get(s, t).pc.Unlocking? && Get(s, t).event
    case CallbackSignals => InLockCallback(s) && s.phase.Begin?
    case CallbackTakes => InLockCallback(s) && s.phase.Parked? && Get(s, s.port.pc.user.thread).mutex.Free?
    case CallbackReleases => InLockCallback(s) && s.phase.Taken?
    case CallbackEnds => InLockCallback(s) && s.phase.Released?
    case TimeoutSignals => InLockTimeout(s) && !s.timerDone
  }

  /** A fresh callback or timeout of a copy starts at its beginning. */
  function AfterSched(s: Sys, e: Step): Sys
    requires Possible(s.port, e)
  {
    var n := Apply(s.port, e);
    s.(port := n,
       phase := if e.Run? && n.pc.InCallback? then Begin else s.phase,
       timerDone := if e.Timeout? && n.signals.timing.Some? then false else s.timerDone)
  }

  function Detached(p: Port, u: User): Port {
    if u in p.isQueued || HasBlock(p.blocking, u) then p else p.(attached := p.attached - {u})
  }

  function Do(s: Sys, m: Move): Sys
    requires CanMove(s, m)
  {
    match m
    case Sched(e) => AfterSched(s, e)
    case LockBegin(t, d) =>
      var c, g := Get(s, t), Get(s, t).generation + 1;
      Put(s.(port := s.port.(attached := s.port.attached[LockCopy(t, g) := d])), t,
          c.(pc := Ready(g), mutex := ByClient, timedOut := false, generation := g))
    case LockQueue(t) =>
      var c := Get(s, t);
      var u := LockCopy(t, c.pc.gen);
      if RequestStatus(s.port, u, true) == Success then
        Put(s.(port := QueueRequest(s.port, u, LOW, true)), t, c.(pc := Pending(c.pc.gen)))
      else
        Put(s.(port := Detached(s.port, u)), t, c.(pc := Idle, mutex := Free))
    case LockWake(t) =>
      var c := Get(s, t);
      var u := LockCopy(t, c.pc.gen);
      Put(s.(port := Detached(s.port, u)), t,
          if c.timedOut then c.(pc := Idle, event := false, mutex := Free)
          else c.(pc := Holding(c.pc.gen, 1), event := false))
    case Nest(t) =>
      var c := Get(s, t);
      Put(s, t, c.(pc := Holding(c.pc.gen, c.pc.depth + 1)))
    case Unnest(t) =>
      var c := Get(s, t);
      Put(s, t, c.(pc := Holding(c.pc.gen, c.pc.depth - 1)))
    case UnlockBegin(t) =>
      var c := Get(s, t);
      Put(s, t, c.(pc := Unlocking(c.pc.gen), mutex := Free))
    case UnlockWake(t) => Put(s, t, Get(s, t).(pc := Idle, event := false))
    case CallbackSignals =>
      var t := s.port.pc.user.thread;
      Put(s.(phase := Parked), t, Get(s, t).(event := true))
    case CallbackTakes =>
      var t := s.port.pc.user.thread;
      Put(s.(phase := Taken), t, Get(s, t).(mutex := ByPort))
    case CallbackReleases =>
      var t := s.port.pc.user.thread;
      Put(s.(phase := Released), t, Get(s, t).(mutex := Free))
    case CallbackEnds =>
      var t := s.port.pc.user.thread;
      Put(s.(phase := Ended), t, Get(s, t).(event := true))
    case TimeoutSignals =>
      var t := s.port.signals.timing.value.thread;
      Put(s.(timerDone := true), t, Get(s, t).(timedOut := true, event := true))
  }

  // ---- What every move keeps ----

  predicate Runs(p: Port, t: nat, g: nat) { p.pc.InCallback? && p.pc.user == LockCopy(t, g) }

  predicate Times(p: Port, t: nat, g: nat) { p.signals.timing == Some(LockCopy(t, g)) }

  /** A copy of thread `t` in the scheduler belongs to the thread's present call. */
  predicate CopyOk(s: Sys, t: nat, g: nat) {
    var c, u := Get(s, t), LockCopy(t, g);
    && (u in s.port.isQueued ==> c.pc == Pending(g))
    && (u in s.port.attached ==> g <= c.generation)
    && (Runs(s.port, t, g) ==>
          g <= c.generation &&
          (s.phase.Ended? || c.pc == Pending(g) || (c.pc.Holding? && c.pc.gen == g) || c.pc == Unlocking(g)))
    && (Times(s.port, t, g) ==> g <= c.generation && (s.timerDone || c.pc == Pending(g)))
  }

  /** What a thread waiting for the begin event waits for. */
  predicate PendingOk(s: Sys, t: nat, g: nat) {
    var c, u := Get(s, t), LockCopy(t, g);
    var running, timing := Runs(s.port, t, g), Times(s.port, t, g);
    || (!c.event && !c.timedOut && !running && !timing && u in s.port.isQueued)
    || (!c.event && !c.timedOut && !timing && running && s.phase.Begin? && u !in s.port.isQueued)
    || (c.event && !c.timedOut && !timing && running && s.phase.Parked? && u !in s.port.isQueued)
    || (!c.event && !c.timedOut && !running && timing && !s.timerDone && u !in s.port.isQueued)
    || (c.event && c.timedOut && !running && (timing ==> s.timerDone) && u !in s.port.isQueued)
  }

  predicate UnlockingOk(s: Sys, t: nat, g: nat) {
    var c := Get(s, t);
    && !Times(s.port, t, g)
    && if Runs(s.port, t, g) then
         || (s.phase.Parked? && c.mutex.Free? && !c.event)
         || (s.phase.Taken? && c.mutex.ByPort? && !c.event)
         || (s.phase.Released? && c.mutex.Free? && !c.event)
         || (s.phase.Ended? && c.mutex.Free? && c.event)
       else c.mutex.Free? && c.event
  }

  predicate ThreadOk(s: Sys, t: nat) {
    var c := Get(s, t);
    match c.pc
    case Idle => !c.event && c.mutex.Free?
    case Ready(g) =>
      && !c.event && c.mutex.ByClient? && !c.timedOut && g == c.generation && LockCopy(t, g) in s.port.attached
      && !Runs(s.port, t, g) && !Times(s.port, t, g)
    case Pending(g) => c.mutex.ByClient? && g <= c.generation && PendingOk(s, t, g)
    case Holding(g, d) =>
      && d > 0 && !c.event && c.mutex.ByClient? && g <= c.generation
      && Runs(s.port, t, g) && s.phase.Parked? && !Times(s.port, t, g)
    case Unlocking(g) => g <= c.generation && UnlockingOk(s, t, g)
  }

  ghost predicate SysInv(s: Sys) {
    && Inv(s.port) && CopiesModest(s.port)
    && (forall t: nat :: ThreadOk(s, t))
    && (forall t: nat, g: nat :: CopyOk(s, t, g))
  }

  // ---- The scheduler's own steps, seen from a copy ----

  /** The port thread started at most one new process callback, of a queued
      user, and a copy leaves its queue only that way. */
  predicate Advanced(p: Port, n: Port, u: User) {
    && n.attached == p.attached && n.signals == p.signals
    && (n.pc.InCallback? ==> n.pc.user in p.isQueued)
    && (u in n.isQueued <==> u in p.isQueued && !(n.pc.InCallback? && n.pc.user == u))
    && (forall v | v in n.queues[CONNECT] :: v in p.queues[CONNECT])
  }

  lemma ScanSeenByCopy(p: Port, u: User)
    requires QueuesIntact(p.queues, p.isQueued)
    ensures Advanced(p, Scan(p), u)
  {
    var r := Pick(p.(queueStateChange := false), HIGH);
    if r.Some? {
      assert Holds(p.queues, r.value.0, r.value.1, p.queues[r.value.0][r.value.1]);
    }
  }

  lemma RunSeenByCopy(p: Port, u: User)
    requires QueuesIntact(p.queues, p.isQueued) && !p.pc.Waiting?
    requires u.LockCopy? && (forall v | v in p.queues[CONNECT] :: v.Client?)
    ensures Advanced(p, PortThread(p), u)
  {
    if p.pc.InCallback? {
      ScanSeenByCopy(p.(blocking := RecordHolders(p.blocking, p.pc.user, p.pc.dev)), u);
    } else if p.queues[CONNECT] != [] {
      assert Holds(p.queues, CONNECT, 0, p.queues[CONNECT][0]);
      assert p.queues[CONNECT][0] in p.queues[CONNECT];
    } else {
      ScanSeenByCopy(p, u);
    }
  }

  lemma TimeoutSeenByCopy(p: Port, v: User, u: User)
    requires QueuesIntact(p.queues, p.isQueued) && u.LockCopy?
    ensures var n := TimeoutBegin(p, v);
            && n.attached == p.attached && n.pc == p.pc
            && (u in n.isQueued <==> u in p.isQueued && u != v)
            && n.signals.timing == (if v in p.isQueued && v.HasTimeout() then Some(v) else p.signals.timing)
            && (forall w | w in n.queues[CONNECT] :: w in p.queues[CONNECT])
  {
    if v in p.isQueued { QueuedIsLocated(p, v); }
  }

  /** Every other step leaves a copy where it is. */
  lemma OtherSeenByCopy(p: Port, e: Step, u: User)
    requires Possible(p, e) && Foreign(e) && !e.Run? && !e.Timeout? && u.LockCopy?
    requires forall v | v in p.queues[CONNECT] :: v.Client?
    ensures var n := Apply(p, e);
            && (u in n.isQueued <==> u in p.isQueued) && (u in n.attached <==> u in p.attached)
            && (e.Wake? || n.pc == p.pc) && (n.pc.InCallback? ==> n.pc == p.pc)
            && n.signals.timing == (if e.TimeoutEnd? then None else p.signals.timing)
            && (forall w | w in n.queues[CONNECT] :: w.Client?)
  {
  }

  // ---- One move ----

  /** The step of the scheduler that a client's move performs, if any. */
  function StepOf(s: Sys, m: Move): Option<Step>
    requires CanMove(s, m)
  {
    match m
    case Sched(e) => Some(e)
    case LockBegin(t, d) => Some(Attach(LockCopy(t, Get(s, t).generation + 1), d))
    case LockQueue(t) =>
      var u := LockCopy(t, Get(s, t).pc.gen);
      if RequestStatus(s.port, u, true) == Success then Some(Queue(u, LOW, true)) else Some(Detach(u))
    case LockWake(t) => Some(Detach(LockCopy(t, Get(s, t).pc.gen)))
    case _ => None
  }

  lemma MoveIsStep(s: Sys, m: Move)
    requires SysInv(s) && CanMove(s, m)
    ensures match StepOf(s, m)
            case None => Do(s, m).port == s.port
            case Some(e) => Possible(s.port, e) && Do(s, m).port == Apply(s.port, e)
  {
    if m.LockBegin? {
      assert CopyOk(s, m.thread, Get(s, m.thread).generation + 1);
    }
  }

  /** Copies never block and never use the connect queue. */
  ghost predicate CopiesModest(p: Port) {
    && (forall u | HasBlock(p.blocking, u) :: u.Client?)
    && (forall u | u in p.queues[CONNECT] :: u.Client?)
  }

  lemma BlocksStayModest(p: Port, e: Step)
    requires CopiesModest(p) && Possible(p, e) && (Foreign(e) || e.Attach? || e.Detach? || e == Queue(e.user, LOW, true))
    ensures forall u | HasBlock(Apply(p, e).blocking, u) :: u.Client?
  {
    if e.Queue? || e.Cancel? || e.Timeout? { QueueStepsSignal(p, e); }
  }

  lemma ConnectQueueStaysModest(p: Port, e: Step)
    requires QueuesIntact(p.queues, p.isQueued) && CopiesModest(p) && Possible(p, e)
    requires Foreign(e) || e.Attach? || e.Detach? || e == Queue(e.user, LOW, true)
    ensures forall u | u in Apply(p, e).queues[CONNECT] :: u.Client?
  {
    match e
    case Run => RunSeenByCopy(p, LockCopy(0, 0));
    case Timeout(v) => TimeoutSeenByCopy(p, v, LockCopy(0, 0));
    case _ => if Foreign(e) { OtherSeenByCopy(p, e, LockCopy(0, 0)); }
  }

  lemma MoveKeepsPort(s: Sys, m: Move)
    requires SysInv(s) && CanMove(s, m)
    ensures var n := Do(s, m).port; Inv(n) && CopiesModest(n)
  {
    MoveIsStep(s, m);
    var e := StepOf(s, m);
    if e.Some? {
      StepKeeps(s.port, e.value);
      BlocksStayModest(s.port, e.value);
      ConnectQueueStaysModest(s.port, e.value);
    }
  }

  predicate AtGeneration(c: Thread, g: nat) { c.pc.Idle? || c.pc.gen == g }

  lemma SchedKeeps(s: Sys, e: Step, t: nat, g: nat)
    requires QueuesIntact(s.port.queues, s.port.isQueued) && CopiesModest(s.port) && CanMove(s, Sched(e))
    requires ThreadOk(s, t) && CopyOk(s, t, g)
    ensures CopyOk(AfterSched(s, e), t, g)
    ensures AtGeneration(Get(s, t), g) ==> ThreadOk(AfterSched(s, e), t)
  {
    if e.Run? {
      SchedRunKeeps(s, t, g);
    } else if e.Timeout? {
      SchedTimeoutKeeps(s, e.user, t, g);
    } else {
      SchedOtherKeeps(s, e, t, g);
    }
  }

  lemma SchedRunKeeps(s: Sys, t: nat, g: nat)
    requires QueuesIntact(s.port.queues, s.port.isQueued) && CopiesModest(s.port) && CanMove(s, Sched(Run))
    requires ThreadOk(s, t) && CopyOk(s, t, g)
    ensures CopyOk(AfterSched(s, Run), t, g)
    ensures AtGeneration(Get(s, t), g) ==> ThreadOk(AfterSched(s, Run), t)
  {
    RunSeenByCopy(s.port, LockCopy(t, g));
  }

  lemma SchedTimeoutKeeps(s: Sys, v: User, t: nat, g: nat)
    requires QueuesIntact(s.port.queues, s.port.isQueued) && CopiesModest(s.port) && CanMove(s, Sched(Timeout(v)))
    requires ThreadOk(s, t) && CopyOk(s, t, g)
    ensures CopyOk(AfterSched(s, Timeout(v)), t, g)
    ensures AtGeneration(Get(s, t), g) ==> ThreadOk(AfterSched(s, Timeout(v)), t)
  {
    TimeoutSeenByCopy(s.port, v, LockCopy(t, g));
  }

  lemma SchedOtherKeeps(s: Sys, e: Step, t: nat, g: nat)
    requires CopiesModest(s.port) && CanMove(s, Sched(e)) && !e.Run? && !e.Timeout?
    requires ThreadOk(s, t) && CopyOk(s, t, g)
    ensures CopyOk(AfterSched(s, e), t, g)
    ensures AtGeneration(Get(s, t), g) ==> ThreadOk(AfterSched(s, e), t)
  {
    OtherSeenByCopy(s.port, e, LockCopy(t, g));
  }

  predicate ByPortOrTimer(m: Move) {
    m.CallbackSignals? || m.CallbackTakes? || m.CallbackReleases? || m.CallbackEnds? || m.TimeoutSignals?
  }

  lemma CallbackKeeps(s: Sys, m: Move, t: nat, g: nat)
    requires CanMove(s, m) && ByPortOrTimer(m) && ThreadOk(s, t) && CopyOk(s, t, g)
    requires var u := Caller(s, m); ThreadOk(s, u.thread) && CopyOk(s, u.thread, u.generation)
    ensures CopyOk(Do(s, m), t, g)
    ensures AtGeneration(Get(s, t), g) ==> ThreadOk(Do(s, m), t)
  {
  }

  function Caller(s: Sys, m: Move): User
    requires CanMove(s, m) && ByPortOrTimer(m)
    ensures Caller(s, m).LockCopy?
  {
    if m.TimeoutSignals? then s.port.signals.timing.value else s.port.pc.user
  }

  predicate Acquires(m: Move) { m.LockBegin? || m.LockQueue? || m.LockWake? }

  lemma BeginKeeps(s: Sys, m: Move, t: nat, g: nat)
    requires CanMove(s, m) && m.LockBegin?
    requires ThreadOk(s, t) && CopyOk(s, t, g) && CopyOk(s, t, Get(s, t).generation + 1)
    ensures CopyOk(Do(s, m), t, g)
    ensures AtGeneration(Get(s, t), g) ==> ThreadOk(Do(s, m), t)
  {
  }

  lemma WakeKeeps(s: Sys, m: Move, t: nat, g: nat)
    requires CanMove(s, m) && m.LockWake?
    requires ThreadOk(s, t) && CopyOk(s, t, g) && ThreadOk(s, m.thread)
    requires forall u | HasBlock(s.port.blocking, u) :: u.Client?
    ensures CopyOk(Do(s, m), t, g)
    ensures AtGeneration(Get(s, t), g) ==> ThreadOk(Do(s, m), t)
  {
  }

  lemma QueueKeeps(s: Sys, m: Move, t: nat, g: nat)
    requires CanMove(s, m) && m.LockQueue?
    requires ThreadOk(s, t) && CopyOk(s, t, g) && ThreadOk(s, m.thread)
    requires forall u | HasBlock(s.port.blocking, u) :: u.Client?
    ensures CopyOk(Do(s, m), t, g)
    ensures AtGeneration(Get(s, t), g) ==> ThreadOk(Do(s, m), t)
  {
  }

  lemma ReleaseKeeps(s: Sys, m: Move, t: nat, g: nat)
    requires CanMove(s, m) && !m.Sched? && !ByPortOrTimer(m) && !Acquires(m)
    requires ThreadOk(s, t) && CopyOk(s, t, g)
    ensures CopyOk(Do(s, m), t, g)
    ensures AtGeneration(Get(s, t), g) ==> ThreadOk(Do(s, m), t)
  {
  }

  lemma MoveKeepsThread(s: Sys, m: Move, t: nat, g: nat)
    requires SysInv(s) && CanMove(s, m)
    ensures CopyOk(Do(s, m), t, g)
    ensures AtGeneration(Get(s, t), g) ==> ThreadOk(Do(s, m), t)
  {
    if m.Sched? {
      SchedKeeps(s, m.step, t, g);
    } else if ByPortOrTimer(m) {
      CallbackKeeps(s, m, t, g);
    } else if m.LockBegin? {
      BeginKeeps(s, m, t, g);
    } else if m.LockQueue? {
      QueueKeeps(s, m, t, g);
    } else if m.LockWake? {
      WakeKeeps(s, m, t, g);
    } else {
      ReleaseKeeps(s, m, t, g);
    }
  }

  lemma MoveKeeps(s: Sys, m: Move)
    requires SysInv(s) && CanMove(s, m)
    ensures SysInv(Do(s, m))
  {
    MoveKeepsPort(s, m);
    forall t: nat ensures ThreadOk(Do(s, m), t) {
      var g := if Get(s, t).pc.Idle? then 0 else Get(s, t).pc.gen;
      MoveKeepsThread(s, m, t, g);
    }
    forall t: nat, g: nat ensures CopyOk(Do(s, m), t, g) {
      MoveKeepsThread(s, m, t, g);
    }
  }

  // ---- Whole runs ----

  predicate ValidMoves(s: Sys, run: seq<Move>)
    decreases |run|
  {
    run == [] || (CanMove(s, run[0]) && ValidMoves(Do(s, run[0]), run[1..]))
  }

  function DoAll(s: Sys, run: seq<Move>): Sys
    requires ValidMoves(s, run)
    decreases |run|
  {
    if run == [] then s else DoAll(Do(s, run[0]), run[1..])
  }

  lemma {:induction false} MovesKeep(s: Sys, run: seq<Move>)
    requires SysInv(s) && ValidMoves(s, run)
    ensures SysInv(DoAll(s, run))
    decreases |run|
  {
    if run != [] {
      MoveKeeps(s, run[0]);
      MovesKeep(Do(s, run[0]), run[1..]);
    }
  }

  lemma ReachableSys(run: seq<Move>)
    requires ValidMoves(START, run)
    ensures SysInv(DoAll(START, run))
  {
    InitialIsFine();
    assert SysInv(START);
    MovesKeep(START, run);
  }

  /** The port thread is parked in this thread's callback and cannot go on. */
  predicate ParksPortThread(s: Sys, t: nat) {
    && Get(s, t).pc.Holding?
    && s.port.pc.InCallback? && s.port.pc.user == LockCopy(t, Get(s, t).pc.gen) && s.phase.Parked?
    && Get(s, t).mutex.ByClient?
    && !CanMove(s, Sched(Run)) && !CanMove(s, CallbackTakes)
  }

  lemma HoldingParks(s: Sys, t: nat)
    requires SysInv(s) && Get(s, t).pc.Holding?
    ensures ParksPortThread(s, t) && forall t': nat | Get(s, t').pc.Holding? :: t' == t
  {
    assert ThreadOk(s, t);
    forall t': nat | Get(s, t').pc.Holding? ensures t' == t {
      assert ThreadOk(s, t');
    }
  }

  /** While a thread is between its outermost queueLockPort and queueUnlockPort,
      the port thread is parked in its callback and nobody else holds the lock. */
  lemma LockParksPortThread(run: seq<Move>, t: nat)
    requires ValidMoves(START, run)
    ensures var s := DoAll(START, run);
            Get(s, t).pc.Holding? ==> ParksPortThread(s, t) && forall t': nat | Get(s, t').pc.Holding? :: t' == t
  {
    ReachableSys(run);
    var s := DoAll(START, run);
    if Get(s, t).pc.Holding? { HoldingParks(s, t); }
  }

  // ---- Matching calls ----

  /** Calls of queueLockPort by the thread without a queueUnlockPort yet, after one more move. */
  function NextOpen(m: Move, t: nat, n: int): int {
    if m == Nest(t) then n + 1 else if m == Unnest(t) || m == UnlockBegin(t) then n - 1 else n
  }

  function Open(run: seq<Move>, t: nat, n: int): int {
    if run == [] then n else Open(run[1..], t, NextOpen(run[0], t, n))
  }

  /** Some call is without its queueUnlockPort at every point of the run. */
  predicate AlwaysOpen(run: seq<Move>, t: nat, n: int) {
    n > 0 && (run == [] || AlwaysOpen(run[1..], t, NextOpen(run[0], t, n)))
  }

  lemma DepthNext(s: Sys, m: Move, t: nat)
    requires CanMove(s, m) && ThreadOk(s, t) && Get(s, t).pc.Holding? && NextOpen(m, t, Get(s, t).pc.depth) > 0
    ensures Get(Do(s, m), t).pc == Holding(Get(s, t).pc.gen, NextOpen(m, t, Get(s, t).pc.depth))
  {
  }

  lemma {:induction false} DepthFollows(s: Sys, run: seq<Move>, t: nat)
    requires SysInv(s) && ValidMoves(s, run) && Get(s, t).pc.Holding? && AlwaysOpen(run, t, Get(s, t).pc.depth)
    ensures Open(run, t, Get(s, t).pc.depth) > 0
    ensures Get(DoAll(s, run), t).pc == Holding(Get(s, t).pc.gen, Open(run, t, Get(s, t).pc.depth))
    decreases |run|
  {
    if run != [] {
      assert ThreadOk(s, t);
      DepthNext(s, run[0], t);
      MoveKeeps(s, run[0]);
      DepthFollows(Do(s, run[0]), run[1..], t);
    }
  }

  /** From the return of a successful queueLockPort until it and every nested
      call has got its queueUnlockPort, the port thread is parked and nobody else
      has the lock. Exactly the last matching queueUnlockPort is the one that
      releases the mutex, and then the port thread can go on. */
  lemma LockedUntilLastUnlock(before: seq<Move>, run: seq<Move>, t: nat)
    requires ValidMoves(START, before) && CanMove(DoAll(START, before), LockWake(t))
    requires !Get(DoAll(START, before), t).timedOut
    requires ValidMoves(Do(DoAll(START, before), LockWake(t)), run) && AlwaysOpen(run, t, 1)
    ensures var s := DoAll(Do(DoAll(START, before), LockWake(t)), run);
            && ParksPortThread(s, t) && (forall t': nat | Get(s, t').pc.Holding? :: t' == t)
            && (CanMove(s, UnlockBegin(t)) <==> Open(run, t, 1) == 1)
            && (CanMove(s, Unnest(t)) <==> Open(run, t, 1) > 1)
            && (Open(run, t, 1) == 1 ==> CanMove(Do(s, UnlockBegin(t)), CallbackTakes))
  {
    ReachableSys(before);
    MoveKeeps(DoAll(START, before), LockWake(t));
    LockedFrom(Do(DoAll(START, before), LockWake(t)), run, t);
  }

  lemma LockedFrom(w: Sys, run: seq<Move>, t: nat)
    requires SysInv(w) && Get(w, t).pc.Holding? && Get(w, t).pc.depth == 1 && ValidMoves(w, run) && AlwaysOpen(run, t, 1)
    ensures var s := DoAll(w, run);
            && ParksPortThread(s, t) && (forall t': nat | Get(s, t').pc.Holding? :: t' == t)
            && (CanMove(s, UnlockBegin(t)) <==> Open(run, t, 1) == 1)
            && (CanMove(s, Unnest(t)) <==> Open(run, t, 1) > 1)
            && (Open(run, t, 1) == 1 ==> CanMove(Do(s, UnlockBegin(t)), CallbackTakes))
  {
    DepthFollows(w, run, t);
    MovesKeep(w, run);
    HoldingParks(DoAll(w, run), t);
    if Open(run, t, 1) == 1 { UnlockLetsGo(DoAll(w, run), t); }
  }

  lemma UnlockLetsGo(s: Sys, t: nat)
    requires ParksPortThread(s, t) && Get(s, t).pc.depth == 1
    ensures CanMove(s, UnlockBegin(t)) && CanMove(Do(s, UnlockBegin(t)), CallbackTakes)
  {
  }

  /** The copy of the user sits on the given device and is queued last in the low queue. */
  lemma LockQueuesCopy(s: Sys, t: nat)
    requires SysInv(s)
    ensures forall d | CanMove(s, LockBegin(t, d)) ::
              var n := Do(s, LockBegin(t, d));
              n.port.attached == s.port.attached[LockCopy(t, Get(s, t).generation + 1) := d]
              && Get(n, t).pc == Ready(Get(s, t).generation + 1) && Get(n, t).mutex.ByClient?
    ensures CanMove(s, LockQueue(t)) ==>
              var n, u := Do(s, LockQueue(t)), LockCopy(t, Get(s, t).pc.gen);
              if PORT !in s.port.disabled then
                && n.port.queues == s.port.queues[LOW := s.port.queues[LOW] + [u]]
                && Get(n, t) == Get(s, t).(pc := Pending(u.generation))
              else Get(n, t).pc.Idle? && Get(n, t).mutex.Free? && n.port.queues == s.port.queues
  {
    if CanMove(s, LockQueue(t)) {
      assert ThreadOk(s, t);
      var u := LockCopy(t, Get(s, t).pc.gen);
      assert CopyOk(s, t, u.generation);
      assert !HasBlock(s.port.blocking, u);
    }
  }

  /** A blocked queueLockPort is queued, about to be signalled, or signalled;
      a blocked queueUnlockPort is signalled or the port thread can go on towards
      it. A thread that is not blocked can go on. */
  lemma BlockedCallersAreServed(run: seq<Move>, t: nat)
    requires ValidMoves(START, run)
    ensures var s := DoAll(START, run);
            && (Get(s, t).pc.Pending? && !Get(s, t).event ==>
                  || LockCopy(t, Get(s, t).pc.gen) in s.port.isQueued
                  || CanMove(s, CallbackSignals) || CanMove(s, TimeoutSignals))
            && (Get(s, t).pc.Unlocking? && !Get(s, t).event ==>
                  CanMove(s, CallbackTakes) || CanMove(s, CallbackReleases) || CanMove(s, CallbackEnds))
            && (Get(s, t).pc.Idle? ==> Get(s, t).mutex.Free? && !Get(s, t).event && forall d :: CanMove(s, LockBegin(t, d)))
            && (Get(s, t).pc.Ready? ==> CanMove(s, LockQueue(t)))
            && (Get(s, t).pc.Pending? && Get(s, t).event ==> CanMove(s, LockWake(t)))
            && (Get(s, t).pc.Holding? ==> CanMove(s, Nest(t)) && (CanMove(s, Unnest(t)) || CanMove(s, UnlockBegin(t))))
            && (Get(s, t).pc.Unlocking? && Get(s, t).event ==> CanMove(s, UnlockWake(t)))
  {
    ReachableSys(run);
    var s := DoAll(START, run);
    assert ThreadOk(s, t);
    if Get(s, t).pc.Pending? && !Get(s, t).event { PendingIsServed(s, t); }
    if Get(s, t).pc.Unlocking? && !Get(s, t).event { UnlockingIsServed(s, t); }
  }

  lemma PendingIsServed(s: Sys, t: nat)
    requires ThreadOk(s, t) && Get(s, t).pc.Pending? && !Get(s, t).event
    ensures || LockCopy(t, Get(s, t).pc.gen) in s.port.isQueued
            || CanMove(s, CallbackSignals) || CanMove(s, TimeoutSignals)
  {
  }

  lemma UnlockingIsServed(s: Sys, t: nat)
    requires ThreadOk(s, t) && Get(s, t).pc.Unlocking? && !Get(s, t).event
    ensures CanMove(s, CallbackTakes) || CanMove(s, CallbackReleases) || CanMove(s, CallbackEnds)
  {
  }

  /** queueLockPort reports a timeout exactly when the timer, and not the port
      thread, took the copy; then the port thread never enters its callback. */
  lemma TimeoutMeansNotLocked(run: seq<Move>, t: nat)
    requires ValidMoves(START, run) && CanMove(DoAll(START, run), LockWake(t))
    ensures var s := DoAll(START, run);
            var g := Get(s, t).pc.gen;
            && (Get(s, t).timedOut <==> !Runs(s.port, t, g))
            && LockCopy(t, g) !in s.port.isQueued
            && (Get(Do(s, LockWake(t)), t).pc.Holding? <==> !Get(s, t).timedOut)
  {
    ReachableSys(run);
    assert ThreadOk(DoAll(START, run), t);
  }
}
