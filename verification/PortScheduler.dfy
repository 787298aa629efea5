/**
 The port scheduler of asynManager as a step system. A step is one stretch of
 code between two points where the port's `asynManagerLock` is released; the
 steps of the port thread, of the clients and of the timer thread interleave
 freely. The port can block, and it and its devices stay connected.
 */
module PortScheduler {
  import opened Basics

  /** A user of the port. A `LockCopy` is the duplicate that `queueLockPort`
      queues on behalf of a client thread. */
  datatype User =
    | Client(id: nat, process: bool, timeout: bool)
    | LockCopy(thread: nat, generation: nat)
  {
    predicate HasProcess() { LockCopy? || process }
    predicate HasTimeout() { LockCopy? || timeout }
  }

  /** An address on the port; `PORT` stands for the port's own `dpCommon`. */
  type Device = int
  const PORT: Device := -1

  type Priority = p: nat | p < 4
  const LOW: Priority := 0
  const HIGH: Priority := 2
  const CONNECT: Priority := 3

  /** Where the port thread is when it does not hold the lock. */
  datatype Pc =
    | Waiting
    | Woken
    | InConnect(user: User)
    | InCallback(user: User, dev: Device)

  /** What is recorded when a request is accepted and when it is dispatched;
      `blocked` says that the user had a block count at that moment. */
  datatype Request = Request(user: User, priority: Priority, dev: Device, blocked: bool)
  datatype Fate = Dispatched | TimedOut | Cancelled
  datatype Dispatch = Dispatch(request: nat, blocked: bool)

  type Queues = q: seq<seq<User>> | |q| == 4 witness [[], [], [], []]

  /** Who blocks how often, and the recorded holders of the port and its devices. */
  datatype Blocking = Blocking(
    portCount: multiset<User>,
    deviceCount: multiset<User>,
    portHolder: Option<User>,
    deviceHolder: map<Device, User>)

  /** The event of the port thread and the callers on their way to signal it. */
  datatype Signals = Signals(
    event: bool,                        // notifyPortThread is full
    timing: Option<User>,               // the timer thread runs this user's timeoutUser
    announcing: nat,                    // callers of enable before they set queueStateChange
    signalling: nat)                    // callers between their unlock and their signal

  datatype History = History(
    accepted: seq<Request>,
    current: map<User, nat>,            // the request a queued user waits for
    fate: map<nat, Fate>,
    dispatched: seq<Dispatch>)

  datatype Port = Port(
    attached: map<User, Device>,
    disabled: set<Device>,
    queues: Queues,
    isQueued: set<User>,
    queueStateChange: bool,
    pc: Pc,
    blocking: Blocking,
    signals: Signals,
    history: History)

  const INITIAL := Port(map[], {}, [[], [], [], []], {}, false, Waiting,
                        Blocking(multiset{}, multiset{}, None, map[]),
                        Signals(false, None, 0, 0),
                        History([], map[], map[], []))

  // ---- Queue edits ----

  function IndexOf(q: seq<User>, u: User): (k: nat)
    ensures k <= |q|
    ensures k < |q| ==> q[k] == u
    ensures forall j | 0 <= j < k :: q[j] != u
  {
    if q == [] || q[0] == u then 0 else 1 + IndexOf(q[1..], u)
  }

  /** The search of a queued user from the connect queue down to the low queue. */
  function Locate(q: Queues, u: User, top: int): (r: Option<(Priority, nat)>)
    requires top < 4
    ensures r.None? ==> forall p | 0 <= p <= top :: u !in q[p]
    ensures r.Some? ==> r.value.0 <= top && r.value.1 < |q[r.value.0]| && q[r.value.0][r.value.1] == u
    decreases top + 1
  {
    if top < 0 then None
    else if IndexOf(q[top], u) < |q[top]| then Some((top, IndexOf(q[top], u)))
    else Locate(q, u, top - 1)
  }

  function Delete(q: Queues, p: Priority, k: nat): Queues
    requires k < |q[p]|
  {
    q[p := q[p][..k] + q[p][k + 1..]]
  }

  function Insert(q: Queues, p: Priority, u: User, front: bool): Queues {
    q[p := if front then [u] + q[p] else q[p] + [u]]
  }

  // ---- Eligibility and the scan of the port thread ----

  predicate MayPass(holder: Option<User>, u: User) { holder.None? || holder.value == u }

  function DeviceHolder(b: Blocking, d: Device): Option<User> {
    if d in b.deviceHolder then Some(b.deviceHolder[d]) else None
  }

  predicate Eligible(s: Port, u: User) {
    && u in s.attached
    && s.attached[u] !in s.disabled
    && MayPass(s.blocking.portHolder, u)
    && MayPass(DeviceHolder(s.blocking, s.attached[u]), u)
  }

  function FirstEligible(s: Port, q: seq<User>): (k: nat)
    ensures k <= |q|
    ensures k < |q| ==> Eligible(s, q[k])
    ensures forall j | 0 <= j < k :: !Eligible(s, q[j])
  {
    if q == [] || Eligible(s, q[0]) then 0 else 1 + FirstEligible(s, q[1..])
  }

  /** The first eligible entry of the highest priority up to `top` that has one. */
  function Pick(s: Port, top: int): (r: Option<(Priority, nat)>)
    requires top < CONNECT
    ensures r.None? ==> forall p: Priority, a: nat | p <= top && a < |s.queues[p]| :: !Eligible(s, s.queues[p][a])
    ensures r.Some? ==> var (p, k) := r.value;
                        && p <= top && k < |s.queues[p]| && Eligible(s, s.queues[p][k])
                        && (forall a: nat | a < k :: !Eligible(s, s.queues[p][a]))
                        && (forall p': Priority, a: nat | p < p' <= top && a < |s.queues[p']| ::
                              !Eligible(s, s.queues[p'][a]))
    decreases top + 1
  {
    if top < 0 then None
    else if FirstEligible(s, s.queues[top]) < |s.queues[top]| then Some((top, FirstEligible(s, s.queues[top])))
    else Pick(s, top - 1)
  }

  /** The user at position `k` of queue `p` leaves it with the given fate. */
  function Leave(s: Port, p: Priority, k: nat, fate: Fate): Port
    requires k < |s.queues[p]|
  {
    var u := s.queues[p][k];
    s.(queues := Delete(s.queues, p, k), isQueued := s.isQueued - {u}, history := Settle(s.history, u, fate))
  }

  function Settle(h: History, u: User, fate: Fate): History {
    if u in h.current then h.(fate := h.fate[h.current[u] := fate]) else h
  }

  predicate HasBlock(b: Blocking, u: User) { u in b.portCount || u in b.deviceCount }

  predicate IsHolder(s: Port, u: User) {
    s.blocking.portHolder == Some(u) || (u in s.attached && DeviceHolder(s.blocking, s.attached[u]) == Some(u))
  }

  /** The port thread takes the user at position `k` of queue `p` and calls it back at `pc`. */
  function DispatchAt(s: Port, p: Priority, k: nat, pc: Pc): Port
    requires k < |s.queues[p]|
  {
    var u := s.queues[p][k];
    var t := Leave(s, p, k, Dispatched);
    t.(pc := pc,
       history := if u in t.history.current
                  then t.history.(dispatched := t.history.dispatched + [Dispatch(t.history.current[u], HasBlock(s.blocking, u))])
                  else t.history)
  }

  /** The inner loop of the port thread from the reset of queueStateChange to
      the next callback, or to the wait when no queued user may run. */
  function Scan(s: Port): Port {
    var t := s.(queueStateChange := false);
    match Pick(t, HIGH)
    case None => t.(pc := Waiting)
    case Some((p, k)) => DispatchAt(t, p, k, InCallback(t.queues[p][k], t.attached[t.queues[p][k]]))
  }

  /** The loop over the connect queue, then the scan. */
  function ConnectThenScan(s: Port): Port {
    if s.queues[CONNECT] != [] then DispatchAt(s, CONNECT, 0, InConnect(s.queues[CONNECT][0])) else Scan(s)
  }

  /** Holders are recorded when the callback of a user with block counts ends. */
  function RecordHolders(b: Blocking, u: User, d: Device): Blocking {
    b.(portHolder := if u in b.portCount then Some(u) else b.portHolder,
       deviceHolder := if u in b.deviceCount then b.deviceHolder[d := u] else b.deviceHolder)
  }

  function CallbackDone(s: Port, u: User, d: Device): Port {
    var t := s.(blocking := RecordHolders(s.blocking, u, d));
    if t.queueStateChange then t.(pc := Waiting) else Scan(t)
  }

  // ---- The methods of asynManager ----

  datatype Status = Success | Error | Disabled

  predicate AddToFront(s: Port, u: User) {
    HasBlock(s.blocking, u) && IsHolder(s, u)
  }

  function RequestStatus(s: Port, u: User, timed: bool): Status {
    if u !in s.attached || !u.HasProcess() then Error
    else if PORT in s.disabled then Disabled
    else if u in s.isQueued then Error
    else if timed && !u.HasTimeout() then Error
    else Success
  }

  function OneMoreSignal(g: Signals): Signals { g.(signalling := g.signalling + 1) }

  function QueueRequest(s: Port, u: User, p: Priority, timed: bool): Port {
    if RequestStatus(s, u, timed) != Success then s
    else
      var front, h := AddToFront(s, u), s.history;
      s.(queues := Insert(s.queues, p, u, front),
         queueStateChange := true,
         isQueued := s.isQueued + {u},
         signals := OneMoreSignal(s.signals),
         history := h.(accepted := h.accepted + [Request(u, p, s.attached[u], HasBlock(s.blocking, u))],
                       current := h.current[u := |h.accepted|]))
  }

  function CancelRequest(s: Port, u: User): Port {
    if u !in s.attached || u !in s.isQueued then s
    else match Locate(s.queues, u, CONNECT)
      case None => s  // the LOGIC ERROR exit
      case Some((p, k)) => Leave(s, p, k, Cancelled).(queueStateChange := true, signals := OneMoreSignal(s.signals))
  }

  function TimeoutBegin(s: Port, u: User): Port {
    if u !in s.isQueued then s
    else match Locate(s.queues, u, CONNECT)
      case None => s  // the LOGIC ERROR exit
      case Some((p, k)) =>
        Leave(s, p, k, TimedOut).(
          queueStateChange := true,
          signals := if u.HasTimeout() then s.signals.(timing := Some(u)) else OneMoreSignal(s.signals))
  }

  function Block(s: Port, u: User, all: bool): Port {
    if u !in s.attached || u in s.isQueued then s
    else s.(blocking := if all then s.blocking.(portCount := s.blocking.portCount + multiset{u})
                        else s.blocking.(deviceCount := s.blocking.deviceCount + multiset{u}))
  }

  function UnblockPort(b: Blocking, u: User): Blocking {
    var count := b.portCount - multiset{u};
    b.(portCount := count, portHolder := if u !in count && b.portHolder == Some(u) then None else b.portHolder)
  }

  function UnblockDevice(b: Blocking, u: User, d: Device): Blocking {
    var count := b.deviceCount - multiset{u};
    b.(deviceCount := count,
       deviceHolder := if u !in count && DeviceHolder(b, d) == Some(u) then b.deviceHolder - {d} else b.deviceHolder)
  }

  function Unblock(s: Port, u: User, all: bool): Port {
    if u !in s.attached || u in s.isQueued || u !in (if all then s.blocking.portCount else s.blocking.deviceCount)
    then s
    else
      var b := if all then UnblockPort(s.blocking, u) else UnblockDevice(s.blocking, u, s.attached[u]);
      var wasOwner := b.portHolder != s.blocking.portHolder || b.deviceHolder != s.blocking.deviceHolder;
      s.(blocking := b, signals := if wasOwner then OneMoreSignal(s.signals) else s.signals)
  }

  // ---- Steps and runs ----

  datatype Step =
    | Attach(user: User, dev: Device)
    | Detach(user: User)
    | Enable(dev: Device, yes: bool)
    | Announce
    | Queue(user: User, priority: Priority, timed: bool)
    | Cancel(user: User)
    | Timeout(user: User)
    | TimeoutEnd
    | BlockBy(user: User, all: bool)
    | UnblockBy(user: User, all: bool)
    | Signal
    | Wake
    | Run

  /** `connectDevice` is not called for a user inside that user's own callback. */
  predicate Possible(s: Port, e: Step) {
    match e
    case Attach(u, d) => u !in s.attached && !(s.pc.InCallback? && s.pc.user == u)
    case Announce => s.signals.announcing > 0
    case Timeout(u) => s.signals.timing.None?
    case TimeoutEnd => s.signals.timing.Some?
    case Signal => s.signals.signalling > 0
    case Wake => s.pc.Waiting? && s.signals.event
    case Run => !s.pc.Waiting?
    case _ => true
  }

  function PortThread(s: Port): Port {
    match s.pc
    case Waiting => s
    case Woken => if PORT in s.disabled then s.(pc := Waiting) else ConnectThenScan(s)
    case InConnect(u) => ConnectThenScan(s)
    case InCallback(u, d) => CallbackDone(s, u, d)
  }

  function Apply(s: Port, e: Step): Port
    requires Possible(s, e)
  {
    var g := s.signals;
    match e
    case Attach(u, d) => s.(attached := s.attached[u := d])
    case Detach(u) =>
      if u in s.isQueued || HasBlock(s.blocking, u) then s
      else s.(attached := s.attached - {u})
    case Enable(d, yes) =>
      s.(disabled := if yes then s.disabled - {d} else s.disabled + {d},
         signals := g.(announcing := g.announcing + 1))
    case Announce =>
      s.(queueStateChange := true, signals := OneMoreSignal(g.(announcing := g.announcing - 1)))
    case Queue(u, p, timed) => QueueRequest(s, u, p, timed)
    case Cancel(u) => CancelRequest(s, u)
    case Timeout(u) => TimeoutBegin(s, u)
    case TimeoutEnd => s.(signals := OneMoreSignal(g.(timing := None)))
    case BlockBy(u, all) => Block(s, u, all)
    case UnblockBy(u, all) => Unblock(s, u, all)
    case Signal => s.(signals := g.(event := true, signalling := g.signalling - 1))
    case Wake => s.(signals := g.(event := false), pc := Woken)
    case Run => PortThread(s)
  }

  predicate ValidRun(s: Port, run: seq<Step>)
    decreases |run|
  {
    run == [] || (Possible(s, run[0]) && ValidRun(Apply(s, run[0]), run[1..]))
  }

  function Exec(s: Port, run: seq<Step>): Port
    requires ValidRun(s, run)
    decreases |run|
  {
    if run == [] then s else Exec(Apply(s, run[0]), run[1..])
  }
}
