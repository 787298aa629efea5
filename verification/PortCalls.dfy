/**
 What each call of a client does, and how the calls of a whole run add up:
 block counts, accepted requests, enabled devices. Nothing here names the
 function that performs the call.
 */
module PortCalls {
  import opened Basics
  import opened PortScheduler
  import opened PortInvariants
  import opened PortRuns

  // ---- Block counts ----

  /** blockProcessCallback and unblockProcessCallback refuse other users. */
  predicate MayBlock(s: Port, u: User) { u in s.attached && u !in s.isQueued }

  /** How often `u` has blocked and not yet unblocked, after one more step. */
  function NextNet(s: Port, e: Step, u: User, all: bool, n: nat): nat {
    if e == BlockBy(u, all) && MayBlock(s, u) then n + 1
    else if e == UnblockBy(u, all) && MayBlock(s, u) && n > 0 then n - 1
    else n
  }

  /** Accepted blocks minus accepted unblocks of a run, on top of `n`. */
  function Net(s: Port, run: seq<Step>, u: User, all: bool, n: nat): nat
    requires ValidRun(s, run)
    decreases |run|
  {
    if run == [] then n else Net(Apply(s, run[0]), run[1..], u, all, NextNet(s, run[0], u, all, n))
  }

  function CountOf(s: Port, u: User, all: bool): nat {
    if all then s.blocking.portCount[u] else s.blocking.deviceCount[u]
  }

  lemma ScanKeepsCounts(s: Port, u: User, all: bool)
    ensures CountOf(Scan(s), u, all) == CountOf(s, u, all)
  {
  }

  lemma StepCounts(s: Port, e: Step, u: User, all: bool)
    requires Possible(s, e)
    ensures CountOf(Apply(s, e), u, all) == NextNet(s, e, u, all, CountOf(s, u, all))
  {
    match e
    case Queue(_, _, _) => QueueStepsKeepCounts(s, e, u, all);
    case Cancel(_) => QueueStepsKeepCounts(s, e, u, all);
    case Timeout(_) => QueueStepsKeepCounts(s, e, u, all);
    case BlockBy(v, a) => BlockCounts(s, v, a, u, all);
    case UnblockBy(v, a) => UnblockCounts(s, v, a, u, all);
    case Run => PortThreadCounts(s, u, all);
    case _ =>
  }

  lemma QueueStepsKeepCounts(s: Port, e: Step, u: User, all: bool)
    requires Possible(s, e) && (e.Queue? || e.Cancel? || e.Timeout?)
    ensures CountOf(Apply(s, e), u, all) == CountOf(s, u, all)
  {
    QueueStepsSignal(s, e);
  }

  lemma BlockCounts(s: Port, v: User, a: bool, u: User, all: bool)
    ensures CountOf(Block(s, v, a), u, all) == NextNet(s, BlockBy(v, a), u, all, CountOf(s, u, all))
  {
  }

  lemma UnblockCounts(s: Port, v: User, a: bool, u: User, all: bool)
    ensures CountOf(Unblock(s, v, a), u, all) == NextNet(s, UnblockBy(v, a), u, all, CountOf(s, u, all))
  {
    if a { UnblockPortCounts(s, v, u, all); } else { UnblockDeviceCounts(s, v, u, all); }
  }

  lemma OneLess(m: multiset<User>, v: User, u: User)
    ensures (m - multiset{v})[u] == if u == v && m[u] > 0 then m[u] - 1 else m[u]
  {
  }

  lemma UnblockPortCounts(s: Port, v: User, u: User, all: bool)
    ensures CountOf(Unblock(s, v, true), u, all) == NextNet(s, UnblockBy(v, true), u, all, CountOf(s, u, all))
  {
    OneLess(s.blocking.portCount, v, u);
    var b := UnblockPort(s.blocking, v);
    assert b.portCount == s.blocking.portCount - multiset{v} && b.deviceCount == s.blocking.deviceCount;
  }

  lemma UnblockDeviceCounts(s: Port, v: User, u: User, all: bool)
    ensures CountOf(Unblock(s, v, false), u, all) == NextNet(s, UnblockBy(v, false), u, all, CountOf(s, u, all))
  {
    OneLess(s.blocking.deviceCount, v, u);
    if v in s.attached {
      var b := UnblockDevice(s.blocking, v, s.attached[v]);
      assert b.deviceCount == s.blocking.deviceCount - multiset{v} && b.portCount == s.blocking.portCount;
    }
  }

  lemma PortThreadCounts(s: Port, u: User, all: bool)
    ensures CountOf(PortThread(s), u, all) == CountOf(s, u, all)
  {
    if s.pc.InCallback? {
      ScanKeepsCounts(s.(blocking := RecordHolders(s.blocking, s.pc.user, s.pc.dev)), u, all);
    } else {
      ScanKeepsCounts(s, u, all);
    }
  }

  lemma {:induction false} RunCounts(s: Port, run: seq<Step>, u: User, all: bool)
    requires ValidRun(s, run)
    ensures CountOf(Exec(s, run), u, all) == Net(s, run, u, all, CountOf(s, u, all))
    decreases |run|
  {
    if run != [] {
      StepCounts(s, run[0], u, all);
      RunCounts(Apply(s, run[0]), run[1..], u, all);
    }
  }

  /** In every reachable state a user's block counts are its accepted blocks
      minus its accepted unblocks. */
  lemma CountsAddUp(run: seq<Step>, u: User)
    requires ValidRun(INITIAL, run)
    ensures Exec(INITIAL, run).blocking.portCount[u] == Net(INITIAL, run, u, true, 0)
    ensures Exec(INITIAL, run).blocking.deviceCount[u] == Net(INITIAL, run, u, false, 0)
  {
    RunCounts(INITIAL, run, u, true);
    RunCounts(INITIAL, run, u, false);
  }

  /** The user has unblocked less often than blocked before every step of the run. */
  predicate NetPositive(s: Port, run: seq<Step>, u: User, all: bool, n: nat)
    requires ValidRun(s, run)
    decreases |run|
  {
    run == [] || (n > 0 && NetPositive(Apply(s, run[0]), run[1..], u, all, NextNet(s, run[0], u, all, n)))
  }

  lemma {:induction false} NetKeepsPortBlocked(s: Port, run: seq<Step>, u: User)
    requires ValidRun(s, run) && NetPositive(s, run, u, true, CountOf(s, u, true))
    ensures StaysPortBlocked(s, run, u)
    decreases |run|
  {
    if run != [] {
      StepCounts(s, run[0], u, true);
      NetKeepsPortBlocked(Apply(s, run[0]), run[1..], u);
    }
  }

  lemma {:induction false} NetKeepsDeviceBlocked(s: Port, run: seq<Step>, u: User)
    requires ValidRun(s, run) && NetPositive(s, run, u, false, CountOf(s, u, false))
    ensures StaysDeviceBlocked(s, run, u)
    decreases |run|
  {
    if run != [] {
      StepCounts(s, run[0], u, false);
      NetKeepsDeviceBlocked(Apply(s, run[0]), run[1..], u);
    }
  }

  /** From the end of a callback whose user has blocked more often than
      unblocked, and as long as that is so, nobody else is called back: on the
      port, or on the device of that callback. Only calls are counted. */
  lemma BlocksExclude(before: seq<Step>, run: seq<Step>, u: User, all: bool)
    requires ValidRun(INITIAL, before) && ValidRun(Exec(INITIAL, before), run) && run != [] && run[0].Run?
    requires var s := Exec(INITIAL, before);
             s.pc.InCallback? && s.pc.user == u && NetPositive(s, run, u, all, Net(INITIAL, before, u, all, 0))
    ensures var s := Exec(INITIAL, before);
            if all then OnlyRuns(s, run, u) else OnlyRunsOn(s, run, u, s.pc.dev)
  {
    var s := Exec(INITIAL, before);
    ReachableIsFine(before);
    CountsAddUp(before, u);
    if all {
      NetKeepsPortBlocked(s, run, u);
      PortBlockExcludes(s, run, u);
    } else {
      NetKeepsDeviceBlocked(s, run, u);
      DeviceBlockExcludes(s, run, u);
    }
  }

  // ---- A run in which a block holds somebody off ----

  const HOLDER := Client(0, true, false)
  const OTHER := Client(1, true, false)

  const NO_BLOCK := INITIAL.blocking
  const ONE_BLOCK := Blocking(multiset{HOLDER}, multiset{}, None, map[])
  const HELD := Blocking(multiset{HOLDER}, multiset{}, Some(HOLDER), map[])
  const QUIET := INITIAL.signals
  const ASKED := Signals(false, None, 0, 1)

  function DeviceOf(u: User): Device { if u == HOLDER then 0 else 1 }

  /** Two users on two devices of one port; at most one of them is queued. */
  function TwoUsers(pc: Pc, queued: set<User>, low: seq<User>, change: bool, b: Blocking, g: Signals, h: History): Port {
    Port(map[HOLDER := 0, OTHER := 1], {}, [low, [], [], []], queued, change, pc, b, g, h)
  }

  function Nobody(pc: Pc, b: Blocking, h: History): Port { TwoUsers(pc, {}, [], false, b, QUIET, h) }

  function One(u: User, pc: Pc, change: bool, b: Blocking, g: Signals, h: History): Port {
    TwoUsers(pc, {u}, [u], change, b, g, h)
  }

  lemma OneQueues(u: User, pc: Pc, b: Blocking, h: History) returns (h': History)
    requires (u == HOLDER || u == OTHER) && !HasBlock(b, u)
    ensures Apply(Nobody(pc, b, h), Queue(u, LOW, false)) == One(u, pc, true, b, ASKED, h')
  {
    var s := Apply(Nobody(pc, b, h), Queue(u, LOW, false));
    h' := s.history;
    assert [] + [u] == [u] && {} + {u} == {u};
    assert s.queues == [[u], [], [], []];
  }

  lemma OnePicked(u: User, change: bool, b: Blocking, h: History)
    requires (u == HOLDER || u == OTHER) && b.deviceHolder == map[]
    ensures Pick(One(u, Woken, change, b, QUIET, h), HIGH) == if MayPass(b.portHolder, u) then Some((LOW, 0)) else None
  {
    var s := One(u, Woken, change, b, QUIET, h);
    assert Eligible(s, u) == MayPass(b.portHolder, u) && FirstEligible(s, []) == 0;
    assert FirstEligible(s, [u]) == if MayPass(b.portHolder, u) then 0 else 1;
    assert Pick(s, HIGH) == Pick(s, 1) == Pick(s, LOW);
  }

  /** The port thread calls the user back if the holder lets it pass. */
  lemma OneScanned(u: User, change: bool, b: Blocking, h: History) returns (h': History)
    requires (u == HOLDER || u == OTHER) && b.deviceHolder == map[]
    ensures Apply(One(u, Woken, change, b, QUIET, h), Step.Run)
         == if MayPass(b.portHolder, u) then Nobody(InCallback(u, DeviceOf(u)), b, h') else One(u, Waiting, false, b, QUIET, h')
  {
    OnePicked(u, false, b, h);
    assert [u][..0] + [u][1..] == [] && {u} - {u} == {};
    var s := Apply(One(u, Woken, change, b, QUIET, h), Step.Run);
    h' := s.history;
    assert MayPass(b.portHolder, u) ==> s.queues == [[], [], [], []];
  }

  lemma Then(s: Port, e: Step, rest: seq<Step>)
    requires Possible(s, e) && ValidRun(Apply(s, e), rest)
    ensures ValidRun(s, [e] + rest) && Exec(s, [e] + rest) == Exec(Apply(s, e), rest)
  {
    assert ([e] + rest)[1..] == rest;
  }

  const WAKE_UP: seq<Step> := [Signal, Wake, Step.Run]

  lemma WakesUp(s: Port)
    requires s.pc.Waiting? && s.signals == ASKED
    ensures ValidRun(s, WAKE_UP) && Exec(s, WAKE_UP) == Apply(s.(pc := Woken, signals := QUIET), Step.Run)
  {
    var w := Apply(Apply(s, Signal), Wake);
    assert w == s.(pc := Woken, signals := QUIET);
    Then(w, Step.Run, []);
    Then(Apply(s, Signal), Wake, [Step.Run] + []);
    Then(s, Signal, [Wake] + ([Step.Run] + []));
    assert WAKE_UP == [Signal] + ([Wake] + ([Step.Run] + []));
  }

  /** The first user is called back and blocks the port, and the other one queues. */
  const TO_CALLBACK: seq<Step> := [Attach(HOLDER, 0), Attach(OTHER, 1), Queue(HOLDER, LOW, false)] + WAKE_UP
  const TO_BLOCK: seq<Step> := TO_CALLBACK + [BlockBy(HOLDER, true), Queue(OTHER, LOW, false)]
  const TO_NEXT: seq<Step> := [Step.Run] + WAKE_UP
  const TO_RELEASE: seq<Step> := [UnblockBy(HOLDER, true)] + WAKE_UP

  lemma {:induction false} Onwards(s: Port, a: seq<Step>, b: seq<Step>)
    requires ValidRun(s, a) && ValidRun(Exec(s, a), b)
    ensures ValidRun(s, a + b) && Exec(s, a + b) == Exec(Exec(s, a), b)
    decreases |a|
  {
    if a == [] {
      assert a + b == b;
    } else {
      assert (a + b)[1..] == a[1..] + b;
      Onwards(Apply(s, a[0]), a[1..], b);
    }
  }

  lemma CallbackStarts() returns (h: History)
    ensures ValidRun(INITIAL, TO_CALLBACK)
    ensures Exec(INITIAL, TO_CALLBACK) == Nobody(InCallback(HOLDER, 0), NO_BLOCK, h)
  {
    var s1 := Apply(INITIAL, Attach(HOLDER, 0));
    var s2 := Apply(s1, Attach(OTHER, 1));
    assert s2 == Nobody(Waiting, NO_BLOCK, s2.history);
    var h3 := OneQueues(HOLDER, Waiting, NO_BLOCK, s2.history);
    WakesUp(Apply(s2, Queue(HOLDER, LOW, false)));
    h := OneScanned(HOLDER, true, NO_BLOCK, h3);
    Then(s2, Queue(HOLDER, LOW, false), WAKE_UP);
    Then(s1, Attach(OTHER, 1), [Queue(HOLDER, LOW, false)] + WAKE_UP);
    Then(INITIAL, Attach(HOLDER, 0), [Attach(OTHER, 1)] + ([Queue(HOLDER, LOW, false)] + WAKE_UP));
    assert TO_CALLBACK == [Attach(HOLDER, 0)] + ([Attach(OTHER, 1)] + ([Queue(HOLDER, LOW, false)] + WAKE_UP));
  }

  lemma BlockedInCallback() returns (h: History)
    ensures ValidRun(INITIAL, TO_BLOCK)
    ensures Exec(INITIAL, TO_BLOCK) == One(OTHER, InCallback(HOLDER, 0), true, ONE_BLOCK, ASKED, h)
  {
    var h1 := CallbackStarts();
    var s := Exec(INITIAL, TO_CALLBACK);
    var b := Apply(s, BlockBy(HOLDER, true));
    assert b == Nobody(InCallback(HOLDER, 0), ONE_BLOCK, h1);
    h := OneQueues(OTHER, InCallback(HOLDER, 0), ONE_BLOCK, h1);
    Then(b, Queue(OTHER, LOW, false), []);
    Then(s, BlockBy(HOLDER, true), [Queue(OTHER, LOW, false)] + []);
    assert [BlockBy(HOLDER, true)] + ([Queue(OTHER, LOW, false)] + []) == [BlockBy(HOLDER, true), Queue(OTHER, LOW, false)];
    Onwards(INITIAL, TO_CALLBACK, [BlockBy(HOLDER, true), Queue(OTHER, LOW, false)]);
  }

  lemma HeldOff(h: History) returns (h': History)
    ensures var s := One(OTHER, InCallback(HOLDER, 0), true, ONE_BLOCK, ASKED, h);
            && ValidRun(s, TO_NEXT) && NetPositive(s, TO_NEXT, HOLDER, true, 1)
            && Exec(s, TO_NEXT) == One(OTHER, Waiting, false, HELD, QUIET, h')
  {
    var s := One(OTHER, InCallback(HOLDER, 0), true, ONE_BLOCK, ASKED, h);
    var t := Apply(s, Step.Run);
    assert t == One(OTHER, Waiting, true, HELD, ASKED, h);
    WakesUp(t);
    h' := OneScanned(OTHER, true, HELD, h);
    Then(s, Step.Run, WAKE_UP);
    NoUnblock(s, TO_NEXT, HOLDER, 1);
  }

  /** Without an unblock of the user the count stays positive. */
  lemma {:induction false} NoUnblock(s: Port, run: seq<Step>, u: User, n: nat)
    requires ValidRun(s, run) && n > 0 && UnblockBy(u, true) !in run
    ensures NetPositive(s, run, u, true, n)
    decreases |run|
  {
    if run != [] {
      assert run[0] in run;
      NoUnblock(Apply(s, run[0]), run[1..], u, NextNet(s, run[0], u, true, n));
    }
  }

  lemma ReleasedNext(h: History)
    ensures var s := One(OTHER, Waiting, false, HELD, QUIET, h);
            ValidRun(s, TO_RELEASE) && Exec(s, TO_RELEASE).pc == InCallback(OTHER, 1)
  {
    var s := One(OTHER, Waiting, false, HELD, QUIET, h);
    var t := Apply(s, UnblockBy(HOLDER, true));
    assert t == One(OTHER, Waiting, false, NO_BLOCK, ASKED, h);
    WakesUp(t);
    var h' := OneScanned(OTHER, false, NO_BLOCK, h);
    Then(s, UnblockBy(HOLDER, true), WAKE_UP);
  }

  /** A run that meets what `BlocksExclude` asks for: a user blocks the port in
      its callback while another one queues. The port thread goes on and back to
      sleep without calling the other one, and calls it after the unblock. */
  lemma BlockHoldsOff()
    ensures ValidRun(INITIAL, TO_BLOCK)
    ensures var s := Exec(INITIAL, TO_BLOCK);
            && s.pc == InCallback(HOLDER, 0) && OTHER in s.isQueued && ValidRun(s, TO_NEXT)
            && NetPositive(s, TO_NEXT, HOLDER, true, Net(INITIAL, TO_BLOCK, HOLDER, true, 0))
            && var t := Exec(s, TO_NEXT);
               && t.pc.Waiting? && OTHER in t.isQueued && ValidRun(t, TO_RELEASE)
               && Exec(t, TO_RELEASE).pc == InCallback(OTHER, 1)
  {
    var h := BlockedInCallback();
    CountsAddUp(TO_BLOCK, HOLDER);
    var h' := HeldOff(h);
    ReleasedNext(h');
  }

  // ---- Requests ----

  /** queueRequest accepts the user. */
  predicate Accepts(s: Port, u: User, timed: bool) {
    && u in s.attached && u.HasProcess() && PORT !in s.disabled && u !in s.isQueued
    && (timed ==> u.HasTimeout())
  }

  predicate Blocks(s: Port, u: User) { s.blocking.portCount[u] > 0 || s.blocking.deviceCount[u] > 0 }

  /** A blocking holder of the port or of its device goes to the front. */
  predicate GoesFirst(s: Port, u: User) {
    && Blocks(s, u) && u in s.attached
    && (s.blocking.portHolder == Some(u) || (s.attached[u] in s.blocking.deviceHolder && s.blocking.deviceHolder[s.attached[u]] == u))
  }

  /** An accepted request is queued at one end of its queue and is announced to
      the port thread; a refused one changes nothing. */
  lemma QueueTakes(s: Port, u: User, p: Priority, timed: bool)
    ensures var t := Apply(s, Queue(u, p, timed));
            if Accepts(s, u, timed) then
              && t.queues == s.queues[p := if GoesFirst(s, u) then [u] + s.queues[p] else s.queues[p] + [u]]
              && t.isQueued == s.isQueued + {u} && t.queueStateChange
              && t.history.accepted == s.history.accepted + [Request(u, p, s.attached[u], Blocks(s, u))]
              && u in t.history.current && t.history.current[u] == |s.history.accepted|
            else t == s
  {
  }

  /** Exactly one entry is gone from one queue, and it was the user's. */
  ghost predicate TakenOut(s: Port, t: Port, u: User) {
    && t.isQueued == s.isQueued - {u} && (forall p: Priority, a: nat :: !Holds(t.queues, p, a, u))
    && exists p: Priority, k: nat :: Holds(s.queues, p, k, u) && t.queues == s.queues[p := s.queues[p][..k] + s.queues[p][k + 1..]]
  }

  lemma LeaveTakesOut(s: Port, p: Priority, k: nat, f: Fate)
    requires QueuesIntact(s.queues, s.isQueued) && k < |s.queues[p]|
    ensures TakenOut(s, Leave(s, p, k, f), s.queues[p][k])
  {
    var u, t := s.queues[p][k], Leave(s, p, k, f);
    assert Holds(s.queues, p, k, u);
    forall p': Priority, a: nat ensures !Holds(t.queues, p', a, u) { DeleteHolds(s.queues, p, k, p', a, u); }
  }

  /** A cancelled request leaves its queue for good, and its fate says why. */
  lemma CancelTakes(s: Port, u: User)
    requires Inv(s)
    ensures var t := Apply(s, Cancel(u));
            if u in s.attached && u in s.isQueued then
              && TakenOut(s, t, u) && t.queueStateChange && u in s.history.current
              && t.history.fate == s.history.fate[s.history.current[u] := Cancelled]
            else t == s
  {
    if u in s.attached && u in s.isQueued {
      QueuedIsLocated(s, u);
      var (p, k) := Locate(s.queues, u, CONNECT).value;
      LeaveTakesOut(s, p, k, Cancelled);
      assert CurrentMatches(s, u);
    }
  }

  /** So does one that timed out; its timeout callback is called if there is one. */
  lemma TimeoutTakes(s: Port, u: User)
    requires Inv(s) && s.signals.timing.None?
    ensures Possible(s, Timeout(u))
    ensures var t := Apply(s, Timeout(u));
            if u in s.isQueued then
              && TakenOut(s, t, u) && t.queueStateChange && u in s.history.current
              && t.history.fate == s.history.fate[s.history.current[u] := TimedOut]
              && t.signals.timing == if u.HasTimeout() then Some(u) else None
            else t == s
  {
    if u in s.isQueued {
      QueuedIsLocated(s, u);
      var (p, k) := Locate(s.queues, u, CONNECT).value;
      LeaveTakesOut(s, p, k, TimedOut);
      assert CurrentMatches(s, u);
    }
  }

  /** A change of the queues, or of what is enabled. */
  predicate Changes(s: Port, e: Step) {
    match e
    case Queue(u, _, timed) => Accepts(s, u, timed)
    case Cancel(u) => u in s.attached && u in s.isQueued
    case Timeout(u) => u in s.isQueued
    case Announce => true
    case _ => false
  }

  /** After a change during a callback the port thread starts no other one, but
      goes back to its event, which somebody signals. */
  lemma ChangeBreaksOff(s: Port, e: Step)
    requires Inv(s) && Possible(s, e) && s.pc.InCallback? && Changes(s, e)
    ensures var t := Apply(s, e);
            var n := Apply(t, Step.Run);
            t.pc == s.pc && n.pc.Waiting? && n.queues == t.queues && SignalUnderway(n.signals)
  {
    if e.Queue? {
      QueueTakes(s, e.user, e.priority, e.timed);
    } else if e.Cancel? {
      CancelTakes(s, e.user);
    } else if e.Timeout? {
      TimeoutTakes(s, e.user);
    }
    if !e.Announce? { QueueStepsSignal(s, e); }
  }

  /** The requests that the calls of a run make, in order. */
  function Accepted(s: Port, run: seq<Step>): seq<Request>
    requires ValidRun(s, run)
    decreases |run|
  {
    if run == [] then [] else RequestOf(s, run[0]) + Accepted(Apply(s, run[0]), run[1..])
  }

  function RequestOf(s: Port, e: Step): seq<Request> {
    match e
    case Queue(u, p, timed) => if Accepts(s, u, timed) then [Request(u, p, s.attached[u], Blocks(s, u))] else []
    case _ => []
  }

  lemma StepAccepts(s: Port, e: Step)
    requires Possible(s, e)
    ensures Apply(s, e).history.accepted == s.history.accepted + RequestOf(s, e)
  {
    if e.Queue? { QueueTakes(s, e.user, e.priority, e.timed); } else { OnlyQueueAccepts(s, e); }
  }

  lemma OnlyQueueAccepts(s: Port, e: Step)
    requires Possible(s, e) && !e.Queue?
    ensures Apply(s, e).history.accepted == s.history.accepted
  {
    if e.Run? { PortThreadAcceptsNothing(s); }
  }

  lemma PortThreadAcceptsNothing(s: Port)
    ensures PortThread(s).history.accepted == s.history.accepted
  {
    var t := s.(blocking := if s.pc.InCallback? then RecordHolders(s.blocking, s.pc.user, s.pc.dev) else s.blocking);
    assert Scan(t).history.accepted == t.history.accepted;
  }

  lemma {:induction false} RunAccepts(s: Port, run: seq<Step>)
    requires ValidRun(s, run)
    ensures Exec(s, run).history.accepted == s.history.accepted + Accepted(s, run)
    decreases |run|
  {
    if run != [] {
      StepAccepts(s, run[0]);
      RunAccepts(Apply(s, run[0]), run[1..]);
    }
  }

  /** The accepted requests of a run are just those that its calls ask for. */
  lemma RequestsAddUp(run: seq<Step>)
    requires ValidRun(INITIAL, run)
    ensures Exec(INITIAL, run).history.accepted == Accepted(INITIAL, run)
  {
    RunAccepts(INITIAL, run);
  }

  // ---- Attached users and enabled devices ----

  /** The device of the last connectDevice that was not undone. */
  function LastDevice(s: Port, run: seq<Step>, u: User, d: Option<Device>): Option<Device>
    requires ValidRun(s, run)
    decreases |run|
  {
    if run == [] then d
    else
      LastDevice(Apply(s, run[0]), run[1..], u,
        match run[0]
        case Attach(v, e) => if v == u then Some(e) else d
        case Detach(v) => if v == u && u !in s.isQueued && !Blocks(s, u) then None else d
        case _ => d)
  }

  /** What the last `enable` for the device said. */
  function LastEnable(run: seq<Step>, d: Device): bool {
    if run == [] then true
    else
      match run[|run| - 1]
      case Enable(e, yes) => if e == d then yes else LastEnable(run[..|run| - 1], d)
      case _ => LastEnable(run[..|run| - 1], d)
  }

  function DeviceNow(s: Port, u: User): Option<Device> { if u in s.attached then Some(s.attached[u]) else None }

  lemma OthersKeepUsers(s: Port, e: Step)
    requires Possible(s, e)
    ensures !e.Attach? && !e.Detach? ==> Apply(s, e).attached == s.attached
    ensures !e.Enable? ==> Apply(s, e).disabled == s.disabled
  {
    match e
    case Queue(_, _, _) => QueueTakes(s, e.user, e.priority, e.timed);
    case Cancel(u) =>
    case Timeout(u) =>
    case UnblockBy(u, all) => UnblockKeepsUsers(s, u, all);
    case Run => PortThreadKeepsUsers(s);
    case _ =>
  }

  lemma UnblockKeepsUsers(s: Port, u: User, all: bool)
    ensures Unblock(s, u, all).attached == s.attached && Unblock(s, u, all).disabled == s.disabled
  {
  }

  lemma PortThreadKeepsUsers(s: Port)
    ensures PortThread(s).attached == s.attached && PortThread(s).disabled == s.disabled
  {
    var t := s.(blocking := if s.pc.InCallback? then RecordHolders(s.blocking, s.pc.user, s.pc.dev) else s.blocking);
    assert Scan(t).attached == t.attached && Scan(t).disabled == t.disabled;
  }

  lemma {:induction false} DevicesFollow(s: Port, run: seq<Step>, u: User)
    requires ValidRun(s, run)
    ensures DeviceNow(Exec(s, run), u) == LastDevice(s, run, u, DeviceNow(s, u))
    decreases |run|
  {
    if run != [] {
      OthersKeepUsers(s, run[0]);
      DevicesFollow(Apply(s, run[0]), run[1..], u);
    }
  }

  /** Users sit on the device they were connected to, and a device is disabled
      exactly if that is what the last `enable` said. */
  lemma UsersAndDevices(run: seq<Step>, u: User, d: Device)
    requires ValidRun(INITIAL, run)
    ensures DeviceNow(Exec(INITIAL, run), u) == LastDevice(INITIAL, run, u, None)
    ensures d !in Exec(INITIAL, run).disabled <==> LastEnable(run, d)
  {
    DevicesFollow(INITIAL, run, u);
    DisabledFollows(run, d);
  }

  lemma {:induction false} DisabledFollows(run: seq<Step>, d: Device)
    requires ValidRun(INITIAL, run)
    ensures d !in Exec(INITIAL, run).disabled <==> LastEnable(run, d)
    decreases |run|
  {
    if run != [] {
      var n := |run| - 1;
      LastStep(INITIAL, run);
      OthersKeepUsers(Exec(INITIAL, run[..n]), run[n]);
      DisabledFollows(run[..n], d);
    }
  }

  lemma {:induction false} LastStep(s: Port, run: seq<Step>)
    requires ValidRun(s, run) && run != []
    ensures var n := |run| - 1;
            && ValidRun(s, run[..n]) && Possible(Exec(s, run[..n]), run[n])
            && Exec(s, run) == Apply(Exec(s, run[..n]), run[n])
    decreases |run|
  {
    var n := |run| - 1;
    if n > 0 {
      LastStep(Apply(s, run[0]), run[1..]);
      assert run[1..][..n - 1] == run[..n][1..] && run[1..][n - 1] == run[n];
    }
  }

  // ---- When process callbacks start ----

  /** What the port thread leaves behind while it calls a user back. */
  predicate ConnectServed(s: Port) { s.pc.InCallback? && !s.queueStateChange ==> s.queues[CONNECT] == [] }

  lemma StepKeepsServed(s: Port, e: Step)
    requires ConnectServed(s) && Possible(s, e)
    ensures ConnectServed(Apply(s, e))
  {
    if e.Run? {
      var t := s.(blocking := if s.pc.InCallback? then RecordHolders(s.blocking, s.pc.user, s.pc.dev) else s.blocking);
      assert Scan(t).queues[CONNECT] == t.queues[CONNECT];
    } else if e.Queue? {
      QueueTakes(s, e.user, e.priority, e.timed);
    }
  }

  lemma {:induction false} RunKeepsServed(s: Port, run: seq<Step>)
    requires ConnectServed(s) && ValidRun(s, run)
    ensures ConnectServed(Exec(s, run))
    decreases |run|
  {
    if run != [] {
      StepKeepsServed(s, run[0]);
      RunKeepsServed(Apply(s, run[0]), run[1..]);
    }
  }

  /** A process callback only starts when no connect request is queued, for a
      queued user on its own enabled device; and a port thread that wakes up to a
      disabled port starts none. */
  lemma CallbacksStart(run: seq<Step>)
    requires ValidRun(INITIAL, run) && !Exec(INITIAL, run).pc.Waiting?
    ensures var s := Exec(INITIAL, run);
            var t := Apply(s, Step.Run);
            t.pc.InCallback? ==>
              && s.queues[CONNECT] == []
              && t.pc.user in s.isQueued && t.pc.user in s.attached && s.attached[t.pc.user] == t.pc.dev
              && t.pc.dev !in s.disabled
              && (s.pc.Woken? ==> PORT !in s.disabled)
  {
    ReachableIsFine(run);
    RunKeepsServed(INITIAL, run);
    var s := Exec(INITIAL, run);
    var t := s.(blocking := if s.pc.InCallback? then RecordHolders(s.blocking, s.pc.user, s.pc.dev) else s.blocking);
    DispatchesEnabled(t);
  }

  lemma DispatchesEnabled(s: Port)
    requires QueuesIntact(s.queues, s.isQueued)
    ensures var t := Scan(s);
            t.pc.InCallback? ==>
              && t.pc.user in s.isQueued && t.pc.user in s.attached && s.attached[t.pc.user] == t.pc.dev
              && t.pc.dev !in s.disabled
  {
    var t := s.(queueStateChange := false);
    var r := Pick(t, HIGH);
    if r.Some? { assert Holds(s.queues, r.value.0, r.value.1, s.queues[r.value.0][r.value.1]); }
  }
}
