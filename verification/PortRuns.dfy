/**
 The main results about asynManager: statements over every run of the port
 scheduler, for every interleaving of clients, timer and port thread.
 */
module PortRuns {
  import opened Basics
  import opened PortScheduler
  import opened PortInvariants

  lemma InitialIsFine()
    ensures Inv(INITIAL)
  {
  }

  lemma ReachableIsFine(run: seq<Step>)
    requires ValidRun(INITIAL, run)
    ensures Inv(Exec(INITIAL, run))
  {
    InitialIsFine();
    RunKeeps(INITIAL, run);
  }

  /** When the port thread sleeps, its event is empty and nobody is on the way
      to signal it, then an enabled port has nothing left to run. */
  lemma NoLostWakeup(run: seq<Step>)
    requires ValidRun(INITIAL, run)
    ensures var s := Exec(INITIAL, run);
            s.pc.Waiting? && !SignalUnderway(s.signals) && PORT !in s.disabled ==>
              && s.queues[CONNECT] == []
              && forall p: Priority, a: nat | p < CONNECT && a < |s.queues[p]| :: !Eligible(s, s.queues[p][a])
  {
    ReachableIsFine(run);
  }

  /** A signal under way can arrive without help from anybody else, and wakes a sleeping port thread. */
  lemma SignalArrives(s: Port) returns (run: seq<Step>)
    requires SignalUnderway(s.signals) && s.pc.Waiting?
    ensures ValidRun(s, run) && Exec(s, run).pc.Woken?
    ensures forall e | e in run :: e.Announce? || e.TimeoutEnd? || e.Signal? || e.Wake?
  {
    if s.signals.event {
      run := [Wake];
    } else if s.signals.signalling > 0 {
      assert [Signal, Wake][1..] == [Wake];
      run := [Signal, Wake];
    } else {
      var first := if s.signals.announcing > 0 then Announce else TimeoutEnd;
      run := [first, Signal, Wake];
      assert run[1..] == [Signal, Wake] && [Signal, Wake][1..] == [Wake];
    }
  }

  /** In every reachable state a user is queued exactly when one queue holds it
      once, so both LOGIC ERROR exits are unreachable. */
  lemma QueueIntegrity(run: seq<Step>, u: User)
    requires ValidRun(INITIAL, run)
    ensures var s := Exec(INITIAL, run);
            && (u in s.isQueued <==> exists p: Priority, a: nat :: Holds(s.queues, p, a, u))
            && (forall p: Priority, a: nat, p': Priority, a': nat ::
                  Holds(s.queues, p, a, u) && Holds(s.queues, p', a', u) ==> p == p' && a == a')
            && (u in s.isQueued ==> Locate(s.queues, u, CONNECT).Some?)
  {
    ReachableIsFine(run);
    var s := Exec(INITIAL, run);
    if u in s.isQueued { QueuedIsLocated(s, u); }
  }

  // ---- Conservation ----

  /** The history is only ever extended. */
  predicate Extends(h: History, h': History) {
    && h.accepted <= h'.accepted
    && h.dispatched <= h'.dispatched
    && forall r | r in h.fate :: r in h'.fate && h'.fate[r] == h.fate[r]
  }

  lemma LeaveExtends(s: Port, p: Priority, k: nat, f: Fate)
    requires Ledger(s) && k < |s.queues[p]|
    ensures Extends(s.history, Leave(s, p, k, f).history)
  {
    var u := s.queues[p][k];
    assert Holds(s.queues, p, k, u) && CurrentMatches(s, u);
    assert IsPending(s, s.history.current[u]);
  }

  lemma ScanExtends(s: Port)
    requires Ledger(s)
    ensures Extends(s.history, Scan(s).history)
  {
    var t := s.(queueStateChange := false);
    LedgerFrame(s, t);
    var r := Pick(t, HIGH);
    if r.Some? { LeaveExtends(t, r.value.0, r.value.1, Dispatched); }
  }

  lemma PortThreadExtends(s: Port)
    requires Ledger(s)
    ensures Extends(s.history, PortThread(s).history)
  {
    if s.pc.InCallback? {
      var t := s.(blocking := RecordHolders(s.blocking, s.pc.user, s.pc.dev));
      LedgerFrame(s, t);
      ScanExtends(t);
    } else if s.queues[CONNECT] != [] {
      LeaveExtends(s, CONNECT, 0, Dispatched);
    } else {
      ScanExtends(s);
    }
  }

  lemma StepExtends(s: Port, e: Step)
    requires Ledger(s) && Possible(s, e)
    ensures Extends(s.history, Apply(s, e).history)
  {
    match e
    case Run => PortThreadExtends(s);
    case Cancel(u) =>
      var l := Locate(s.queues, u, CONNECT);
      if l.Some? { LeaveExtends(s, l.value.0, l.value.1, Cancelled); }
    case Timeout(u) =>
      var l := Locate(s.queues, u, CONNECT);
      if l.Some? { LeaveExtends(s, l.value.0, l.value.1, TimedOut); }
    case _ =>
  }

  lemma {:induction false} RunExtends(s: Port, run: seq<Step>)
    requires Inv(s) && ValidRun(s, run)
    ensures Extends(s.history, Exec(s, run).history)
    decreases |run|
  {
    if run != [] {
      StepExtends(s, run[0]);
      StepKeeps(s, run[0]);
      RunExtends(Apply(s, run[0]), run[1..]);
    }
  }

  /** Every accepted request is either still queued or has exactly one fate,
      and a fate never changes in the rest of the run. */
  lemma Conservation(run: seq<Step>, rest: seq<Step>, r: nat)
    requires ValidRun(INITIAL, run) && ValidRun(Exec(INITIAL, run), rest)
    requires r < |Exec(INITIAL, run).history.accepted|
    ensures var s, t := Exec(INITIAL, run), Exec(Exec(INITIAL, run), rest);
            && (IsPending(s, r) <==> r !in s.history.fate)
            && (r in s.history.fate ==> r in t.history.fate && t.history.fate[r] == s.history.fate[r])
            && r < |t.history.accepted| && t.history.accepted[r] == s.history.accepted[r]
  {
    ReachableIsFine(run);
    RunExtends(Exec(INITIAL, run), rest);
  }

  // ---- Block exclusion ----

  predicate StaysPortBlocked(s: Port, run: seq<Step>, u: User)
    requires ValidRun(s, run)
    decreases |run|
  {
    run == [] || (u in s.blocking.portCount && StaysPortBlocked(Apply(s, run[0]), run[1..], u))
  }

  /** Every process callback that the port thread starts in the run is the user's. */
  predicate OnlyRuns(s: Port, run: seq<Step>, u: User)
    requires ValidRun(s, run)
    decreases |run|
  {
    run == [] ||
    (var t := Apply(s, run[0]);
     (run[0].Run? && t.pc.InCallback? ==> t.pc.user == u) && OnlyRuns(t, run[1..], u))
  }

  lemma PortHolderStays(s: Port, e: Step, u: User)
    requires HoldersFine(s) && Possible(s, e) && s.blocking.portHolder == Some(u)
    ensures var t := Apply(s, e);
            && (u in t.blocking.portCount ==> t.blocking.portHolder == Some(u))
            && (e.Run? && t.pc.InCallback? ==> t.pc.user == u)
  {
    if e.Run? { PortHolderRuns(s, u); }
    if e.Queue? || e.Cancel? || e.Timeout? { QueueStepsSignal(s, e); }
  }

  lemma PortHolderRuns(s: Port, u: User)
    requires HoldersFine(s) && Possible(s, Run) && s.blocking.portHolder == Some(u)
    ensures var t := Apply(s, Run);
            && (u in t.blocking.portCount ==> t.blocking.portHolder == Some(u))
            && (t.pc.InCallback? ==> t.pc.user == u)
  {
    if s.pc.InCallback? {
      assert MayPass(s.blocking.portHolder, s.pc.user);
      var r := s.(blocking := RecordHolders(s.blocking, s.pc.user, s.pc.dev));
      assert r.blocking.portHolder == Some(u);
      ScanRespectsHolders(r);
    } else {
      ScanRespectsHolders(s);
    }
  }

  /** The scan changes no holder and dispatches only users that the holders let pass. */
  lemma ScanRespectsHolders(s: Port)
    ensures var t := Scan(s);
            && t.blocking == s.blocking
            && (t.pc.InCallback? ==> MayPass(s.blocking.portHolder, t.pc.user)
                                     && MayPass(DeviceHolder(s.blocking, t.pc.dev), t.pc.user))
  {
  }

  lemma {:induction false} PortHolderExcludes(s: Port, run: seq<Step>, u: User)
    requires Inv(s) && ValidRun(s, run) && StaysPortBlocked(s, run, u)
    requires run != [] ==> s.blocking.portHolder == Some(u)
    ensures OnlyRuns(s, run, u)
    decreases |run|
  {
    if run != [] {
      PortHolderStays(s, run[0], u);
      StepKeeps(s, run[0]);
      PortHolderExcludes(Apply(s, run[0]), run[1..], u);
    }
  }

  /** From the end of a callback in which its user blocked the port until that
      user's count is back to 0, only that user's requests are called back. */
  lemma PortBlockExcludes(s: Port, run: seq<Step>, u: User)
    requires Inv(s) && ValidRun(s, run) && run != [] && run[0].Run?
    requires s.pc.InCallback? && s.pc.user == u
    requires StaysPortBlocked(s, run, u)
    ensures OnlyRuns(s, run, u)
  {
    var t := s.(blocking := RecordHolders(s.blocking, u, s.pc.dev));
    var n := Apply(s, run[0]);
    assert n.blocking == t.blocking;
    StepKeeps(s, run[0]);
    PortHolderExcludes(n, run[1..], u);
  }

  predicate StaysDeviceBlocked(s: Port, run: seq<Step>, u: User)
    requires ValidRun(s, run)
    decreases |run|
  {
    run == [] || (u in s.blocking.deviceCount && StaysDeviceBlocked(Apply(s, run[0]), run[1..], u))
  }

  predicate OnlyRunsOn(s: Port, run: seq<Step>, u: User, d: Device)
    requires ValidRun(s, run)
    decreases |run|
  {
    run == [] ||
    (var t := Apply(s, run[0]);
     (run[0].Run? && t.pc.InCallback? && t.pc.dev == d ==> t.pc.user == u) && OnlyRunsOn(t, run[1..], u, d))
  }

  lemma UnblockKeepsOtherDevices(s: Port, v: User, all: bool, u: User, d: Device)
    requires HoldersFine(s) && DeviceHolder(s.blocking, d) == Some(u)
    ensures var t := Unblock(s, v, all); u in t.blocking.deviceCount ==> DeviceHolder(t.blocking, d) == Some(u)
  {
  }

  lemma DeviceHolderStays(s: Port, e: Step, u: User, d: Device)
    requires HoldersFine(s) && Possible(s, e) && DeviceHolder(s.blocking, d) == Some(u)
    ensures var t := Apply(s, e);
            && (u in t.blocking.deviceCount ==> DeviceHolder(t.blocking, d) == Some(u))
            && (e.Run? && t.pc.InCallback? && t.pc.dev == d ==> t.pc.user == u)
  {
    match e
    case Queue(_, _, _) => QueueStepsSignal(s, e);
    case Cancel(_) => QueueStepsSignal(s, e);
    case Timeout(_) => QueueStepsSignal(s, e);
    case UnblockBy(v, all) => UnblockKeepsOtherDevices(s, v, all, u, d);
    case Run => DeviceHolderRuns(s, u, d);
    case _ =>
  }

  lemma DeviceHolderRuns(s: Port, u: User, d: Device)
    requires HoldersFine(s) && Possible(s, Run) && DeviceHolder(s.blocking, d) == Some(u)
    ensures var t := Apply(s, Run);
            && (u in t.blocking.deviceCount ==> DeviceHolder(t.blocking, d) == Some(u))
            && (t.pc.InCallback? && t.pc.dev == d ==> t.pc.user == u)
  {
    if s.pc.InCallback? {
      assert MayPass(DeviceHolder(s.blocking, s.pc.dev), s.pc.user);
      var r := s.(blocking := RecordHolders(s.blocking, s.pc.user, s.pc.dev));
      assert DeviceHolder(r.blocking, d) == Some(u);
      ScanRespectsHolders(r);
    } else {
      ScanRespectsHolders(s);
    }
  }

  lemma {:induction false} DeviceHolderExcludes(s: Port, run: seq<Step>, u: User, d: Device)
    requires Inv(s) && ValidRun(s, run) && StaysDeviceBlocked(s, run, u)
    requires run != [] ==> DeviceHolder(s.blocking, d) == Some(u)
    ensures OnlyRunsOn(s, run, u, d)
    decreases |run|
  {
    if run != [] {
      DeviceHolderStays(s, run[0], u, d);
      StepKeeps(s, run[0]);
      DeviceHolderExcludes(Apply(s, run[0]), run[1..], u, d);
    }
  }

  lemma DeviceBlockExcludes(s: Port, run: seq<Step>, u: User)
    requires Inv(s) && ValidRun(s, run) && run != [] && run[0].Run?
    requires s.pc.InCallback? && s.pc.user == u
    requires StaysDeviceBlocked(s, run, u)
    ensures OnlyRunsOn(s, run, u, s.pc.dev)
  {
    var t := s.(blocking := RecordHolders(s.blocking, u, s.pc.dev));
    var n := Apply(s, run[0]);
    assert n.blocking == t.blocking;
    StepKeeps(s, run[0]);
    DeviceHolderExcludes(n, run[1..], u, s.pc.dev);
  }

  /** A recorded holder has a positive block count in every reachable state. */
  lemma HoldersHaveBlocks(run: seq<Step>, u: User)
    requires ValidRun(INITIAL, run)
    ensures var s := Exec(INITIAL, run);
            && (s.blocking.portHolder == Some(u) ==> u in s.blocking.portCount)
            && (forall d | DeviceHolder(s.blocking, d) == Some(u) :: u in s.blocking.deviceCount)
  {
    ReachableIsFine(run);
  }

  // ---- Scheduling order ----

  /** The port thread dispatches the first eligible entry of the highest
      priority below connect that has one. */
  lemma DispatchesFirstEligible(s: Port)
    ensures var t := Scan(s);
            if t.pc.InCallback? then
              exists p: Priority, k: nat ::
                && p < CONNECT && Holds(s.queues, p, k, t.pc.user) && Eligible(s, t.pc.user)
                && t.queues == Delete(s.queues, p, k)
                && (forall a: nat | a < k :: !Eligible(s, s.queues[p][a]))
                && (forall p': Priority, a: nat | p < p' < CONNECT && a < |s.queues[p']| :: !Eligible(s, s.queues[p'][a]))
            else
              t.queues == s.queues
              && forall p: Priority, a: nat | p < CONNECT && a < |s.queues[p]| :: !Eligible(s, s.queues[p][a])
  {
    var t := s.(queueStateChange := false);
    forall u ensures Eligible(t, u) == Eligible(s, u) {}
    var r := Pick(t, HIGH);
    if r.Some? {
      assert Holds(s.queues, r.value.0, r.value.1, Scan(s).pc.user);
    } else {
      forall p: Priority, a: nat | p < CONNECT && a < |s.queues[p]| ensures !Eligible(s, s.queues[p][a]) {
        assert !Eligible(t, t.queues[p][a]);
      }
    }
  }

  /** Over any run, two requests of one priority on one device are dispatched
      in acceptance order, unless the later one's user had a block count when
      it was accepted or dispatched. */
  lemma AcceptanceOrder(run: seq<Step>, i: nat, j: nat)
    requires ValidRun(INITIAL, run)
    requires i < j < |Exec(INITIAL, run).history.dispatched|
    ensures var h := Exec(INITIAL, run).history;
            Earlier(h, h.dispatched[j].request, h.dispatched[i].request) ==>
              h.dispatched[i].blocked || h.accepted[h.dispatched[i].request].blocked
  {
    ReachableIsFine(run);
  }
}
