/**
 What every step of the port scheduler keeps, and what follows for whole runs:
 no wakeup is lost, holders exclude other users, every accepted request has
 one fate, and requests are dispatched in order.
 */
module PortInvariants {
  import opened Basics
  import opened PortScheduler

  predicate Holds(q: Queues, p: Priority, a: nat, u: User) {
    a < |q[p]| && q[p][a] == u
  }

  /** A user is queued exactly when one queue holds it, and then exactly once. */
  ghost predicate QueuesIntact(q: Queues, isQueued: set<User>) {
    && (forall p: Priority, a: nat, u :: Holds(q, p, a, u) ==> u in isQueued)
    && (forall u | u in isQueued :: exists p: Priority, a: nat :: Holds(q, p, a, u))
    && (forall u, p: Priority, a: nat, p': Priority, a': nat ::
          Holds(q, p, a, u) && Holds(q, p', a', u) ==> p == p' && a == a')
  }

  /** The current request of a queued user is the one its queue position stands for. */
  ghost predicate CurrentMatches(s: Port, u: User) {
    && u in s.attached && u in s.history.current && s.history.current[u] < |s.history.accepted|
    && var r := s.history.accepted[s.history.current[u]];
       r.user == u && r.dev == s.attached[u] && u in s.queues[r.priority]
  }

  predicate IsPending(s: Port, r: nat) {
    && r < |s.history.accepted|
    && var u := s.history.accepted[r].user;
       u in s.isQueued && u in s.history.current && s.history.current[u] == r
  }

  /** Requests are numbered by acceptance; a request has a fate unless its user
      is queued for it. */
  ghost predicate RequestsAccounted(s: Port) {
    && (forall u | u in s.isQueued :: CurrentMatches(s, u))
    && (forall r: nat | r in s.history.fate :: r < |s.history.accepted|)
    && (forall r: nat | r < |s.history.accepted| :: r in s.history.fate <==> !IsPending(s, r))
  }

  /** Whether a dispatched request may have overtaken earlier ones: its user
      had a block when it was dispatched or accepted. */
  predicate Exempt(h: History, x: Dispatch) {
    x.blocked || (x.request < |h.accepted| && h.accepted[x.request].blocked)
  }

  /** Two requests of one priority on one device, the first accepted earlier. */
  predicate Earlier(h: History, r: nat, r': nat) {
    && r < r' < |h.accepted|
    && h.accepted[r].priority == h.accepted[r'].priority
    && h.accepted[r].dev == h.accepted[r'].dev
  }

  predicate Before(h: History, u: User, v: User) {
    u in h.current && v in h.current && h.current[u] < |h.accepted|
    && (h.current[u] < h.current[v] || h.accepted[h.current[u]].blocked)
  }

  ghost predicate QueuesOrdered(q: Queues, h: History) {
    forall p: Priority, a: nat, b: nat | a < b < |q[p]| :: Before(h, q[p][a], q[p][b])
  }

  /** A dispatched request accepted after a still queued one of its line is exempt. */
  ghost predicate NotOvertaken(s: Port) {
    var h := s.history;
    && (forall i: nat | i < |h.dispatched| :: h.dispatched[i].request < |h.accepted|)
    && (forall i: nat, u | i < |h.dispatched| && u in s.isQueued && u in h.current ::
          Earlier(h, h.current[u], h.dispatched[i].request) ==> Exempt(h, h.dispatched[i]))
  }

  ghost predicate DispatchesOrdered(h: History) {
    forall i: nat, j: nat | i < j < |h.dispatched| ::
      Earlier(h, h.dispatched[j].request, h.dispatched[i].request) ==> Exempt(h, h.dispatched[i])
  }

  ghost predicate Ledger(s: Port) {
    && QueuesIntact(s.queues, s.isQueued) && RequestsAccounted(s)
    && QueuesOrdered(s.queues, s.history) && NotOvertaken(s) && DispatchesOrdered(s.history)
  }

  /** A recorded holder has a positive block count and sits on that device. */
  ghost predicate HoldersBlocked(b: Blocking, attached: map<User, Device>) {
    && (b.portHolder.Some? ==> b.portHolder.value in b.portCount)
    && (forall d | d in b.deviceHolder ::
          var u := b.deviceHolder[d]; u in b.deviceCount && u in attached && attached[u] == d)
    && (forall u | u in b.portCount :: u in attached)
    && (forall u | u in b.deviceCount :: u in attached)
  }

  /** While a callback runs, its user is still one that the holders let pass. */
  predicate RunningMayPass(s: Port) {
    s.pc.InCallback? ==>
      && (s.pc.user in s.attached ==> s.attached[s.pc.user] == s.pc.dev)
      && MayPass(s.blocking.portHolder, s.pc.user)
      && MayPass(DeviceHolder(s.blocking, s.pc.dev), s.pc.user)
  }

  ghost predicate HoldersFine(s: Port) { HoldersBlocked(s.blocking, s.attached) && RunningMayPass(s) }

  /** Somebody has signalled the port thread or is still going to. */
  predicate SignalUnderway(g: Signals) {
    g.event || g.signalling > 0 || g.announcing > 0 || g.timing.Some?
  }

  ghost predicate NothingToDo(s: Port) {
    && s.queues[CONNECT] == []
    && forall p: Priority, a: nat | p < CONNECT && a < |s.queues[p]| :: !Eligible(s, s.queues[p][a])
  }

  ghost predicate WakeupSafe(s: Port) {
    !SignalUnderway(s.signals) ==>
      && (s.pc.Waiting? ==> PORT in s.disabled || NothingToDo(s))
      && (s.pc.InCallback? ==> !s.queueStateChange && s.queues[CONNECT] == [])
  }

  ghost predicate Inv(s: Port) {
    Ledger(s) && HoldersFine(s) && WakeupSafe(s)
  }

  // ---- Leaving a queue ----

  lemma DeleteHolds(q: Queues, p: Priority, k: nat, p': Priority, a: nat, u: User)
    requires k < |q[p]|
    ensures Holds(Delete(q, p, k), p', a, u) ==> Holds(q, p', if p' == p && a >= k then a + 1 else a, u)
    ensures Holds(q, p', a, u) && (p', a) != (p, k) ==>
              Holds(Delete(q, p, k), p', if p' == p && a > k then a - 1 else a, u)
  {
  }

  lemma DeleteKeepsIntact(q: Queues, queued: set<User>, p: Priority, k: nat)
    requires k < |q[p]| && QueuesIntact(q, queued)
    ensures QueuesIntact(Delete(q, p, k), queued - {q[p][k]})
  {
    var u, t := q[p][k], Delete(q, p, k);
    assert Holds(q, p, k, u);
    forall p': Priority, a: nat, v | Holds(t, p', a, v)
      ensures v in queued - {u}
    {
      DeleteHolds(q, p, k, p', a, v);
    }
    forall v | v in queued - {u}
      ensures exists p': Priority, a: nat :: Holds(t, p', a, v)
    {
      var p': Priority, a: nat :| Holds(q, p', a, v);
      DeleteHolds(q, p, k, p', a, v);
    }
    forall v, x: Priority, a: nat, x': Priority, a': nat | Holds(t, x, a, v) && Holds(t, x', a', v)
      ensures x == x' && a == a'
    {
      DeleteHolds(q, p, k, x, a, v);
      DeleteHolds(q, p, k, x', a', v);
    }
  }

  lemma LeaveKeepsAccounts(s: Port, p: Priority, k: nat, f: Fate)
    requires k < |s.queues[p]| && QueuesIntact(s.queues, s.isQueued) && RequestsAccounted(s)
    ensures RequestsAccounted(Leave(s, p, k, f))
  {
    var u, t := s.queues[p][k], Leave(s, p, k, f);
    assert Holds(s.queues, p, k, u) && CurrentMatches(s, u);
    forall v | v in t.isQueued
      ensures CurrentMatches(t, v)
    {
      assert CurrentMatches(s, v);
      var q := s.history.accepted[s.history.current[v]].priority;
      var a: nat :| a < |s.queues[q]| && s.queues[q][a] == v;
      assert t.queues[q][if q == p && a > k then a - 1 else a] == v;
    }
    forall r: nat | r < |t.history.accepted|
      ensures r in t.history.fate <==> !IsPending(t, r)
    {
      assert r in s.history.fate <==> !IsPending(s, r);
    }
  }

  lemma DeleteKeepsOrder(q: Queues, p: Priority, k: nat, h: History)
    requires k < |q[p]| && QueuesOrdered(q, h)
    ensures QueuesOrdered(Delete(q, p, k), h)
  {
    var t := Delete(q, p, k);
    forall p': Priority, a: nat, b: nat | a < b < |t[p']|
      ensures Before(h, t[p'][a], t[p'][b])
    {
      var a', b' := if p' == p && a >= k then a + 1 else a, if p' == p && b >= k then b + 1 else b;
      assert t[p'][a] == q[p'][a'] && t[p'][b] == q[p'][b'];
    }
  }

  /** The order only looks at acceptance numbers. */
  lemma OrderFrame(q: Queues, h: History, h': History)
    requires QueuesOrdered(q, h) && h'.current == h.current && h'.accepted == h.accepted
    ensures QueuesOrdered(q, h')
  {
    forall p: Priority, a: nat, b: nat | a < b < |q[p]|
      ensures Before(h', q[p][a], q[p][b])
    {
      assert Before(h, q[p][a], q[p][b]);
    }
  }

  /** Nobody new is overtaken when the queued users and the dispatches do not grow. */
  lemma OvertakingFrame(s: Port, t: Port)
    requires NotOvertaken(s) && DispatchesOrdered(s.history)
    requires t.isQueued <= s.isQueued && t.history.(fate := s.history.fate) == s.history
    ensures NotOvertaken(t) && DispatchesOrdered(t.history)
  {
    var h, h' := s.history, t.history;
    forall r: nat, r': nat, x ensures Earlier(h, r, r') == Earlier(h', r, r') && Exempt(h, x) == Exempt(h', x) {}
  }

  lemma LeaveKeepsLedger(s: Port, p: Priority, k: nat, f: Fate)
    requires k < |s.queues[p]| && Ledger(s)
    ensures Ledger(Leave(s, p, k, f))
  {
    var t := Leave(s, p, k, f);
    DeleteKeepsIntact(s.queues, s.isQueued, p, k);
    LeaveKeepsAccounts(s, p, k, f);
    DeleteKeepsOrder(s.queues, p, k, s.history);
    OrderFrame(t.queues, s.history, t.history);
    OvertakingFrame(s, t);
  }

  /** A queued user is found, so neither LOGIC ERROR exit can be reached. */
  lemma QueuedIsLocated(s: Port, u: User)
    requires QueuesIntact(s.queues, s.isQueued) && u in s.isQueued
    ensures Locate(s.queues, u, CONNECT).Some?
  {
    var p: Priority, a: nat :| Holds(s.queues, p, a, u);
  }

  // ---- Joining a queue ----

  lemma InsertHolds(q: Queues, p: Priority, u: User, front: bool, p': Priority, a: nat, v: User)
    ensures var a' := if p' == p && front then a + 1 else a;
            Holds(q, p', a, v) ==> Holds(Insert(q, p, u, front), p', a', v)
    ensures Holds(Insert(q, p, u, front), p', a, v) ==>
              || (p' == p && a == (if front then 0 else |q[p]|) && v == u)
              || (var a' := if p' == p && front then a - 1 else a; a' >= 0 && Holds(q, p', a', v))
    ensures Holds(Insert(q, p, u, front), p, if front then 0 else |q[p]|, u)
  {
  }

  lemma InsertKeepsIntact(q: Queues, queued: set<User>, p: Priority, u: User, front: bool)
    requires QueuesIntact(q, queued) && u !in queued
    ensures QueuesIntact(Insert(q, p, u, front), queued + {u})
  {
    var t := Insert(q, p, u, front);
    forall p': Priority, a: nat, v | Holds(t, p', a, v)
      ensures v in queued + {u}
    {
      InsertHolds(q, p, u, front, p', a, v);
    }
    forall v | v in queued + {u}
      ensures exists p': Priority, a: nat :: Holds(t, p', a, v)
    {
      if v == u {
        InsertHolds(q, p, u, front, p, 0, u);
      } else {
        var p': Priority, a: nat :| Holds(q, p', a, v);
        InsertHolds(q, p, u, front, p', a, v);
      }
    }
    forall v, x: Priority, a: nat, x': Priority, a': nat | Holds(t, x, a, v) && Holds(t, x', a', v)
      ensures x == x' && a == a'
    {
      InsertHolds(q, p, u, front, x, a, v);
      InsertHolds(q, p, u, front, x', a', v);
    }
  }

  lemma RequestKeepsAccounts(s: Port, u: User, p: Priority, timed: bool)
    requires RequestsAccounted(s) && RequestStatus(s, u, timed) == Success
    ensures RequestsAccounted(QueueRequest(s, u, p, timed))
  {
    var t, front := QueueRequest(s, u, p, timed), AddToFront(s, u);
    forall v | v in t.isQueued
      ensures CurrentMatches(t, v)
    {
      if v == u {
        assert t.queues[p][if front then 0 else |s.queues[p]|] == u;
      } else {
        assert CurrentMatches(s, v);
        var q := s.history.accepted[s.history.current[v]].priority;
        var a: nat :| a < |s.queues[q]| && s.queues[q][a] == v;
        assert t.queues[q][if q == p && front then a + 1 else a] == v;
      }
    }
    forall r: nat | r < |t.history.accepted|
      ensures r in t.history.fate <==> !IsPending(t, r)
    {
      if r < |s.history.accepted| {
        assert r in s.history.fate <==> !IsPending(s, r);
      }
    }
  }

  lemma RequestKeepsOrder(s: Port, u: User, p: Priority, timed: bool)
    requires RequestStatus(s, u, timed) == Success
    requires QueuesIntact(s.queues, s.isQueued) && RequestsAccounted(s) && QueuesOrdered(s.queues, s.history)
    ensures var t := QueueRequest(s, u, p, timed); QueuesOrdered(t.queues, t.history)
  {
    var t, front := QueueRequest(s, u, p, timed), AddToFront(s, u);
    forall q: Priority, a: nat, b: nat | a < b < |t.queues[q]|
      ensures Before(t.history, t.queues[q][a], t.queues[q][b])
    {
      var x, y := t.queues[q][a], t.queues[q][b];
      InsertHolds(s.queues, p, u, front, q, a, x);
      InsertHolds(s.queues, p, u, front, q, b, y);
      assert Holds(t.queues, q, a, x) && Holds(t.queues, q, b, y);
      var shift := if q == p && front then 1 else 0;
      if x != u && y != u {
        assert Before(s.history, s.queues[q][a - shift], s.queues[q][b - shift]);
      } else if y == u {
        assert CurrentMatches(s, x);
      }
    }
  }

  lemma RequestKeepsOvertaking(s: Port, u: User, p: Priority, timed: bool)
    requires RequestStatus(s, u, timed) == Success && RequestsAccounted(s)
    requires NotOvertaken(s) && DispatchesOrdered(s.history)
    ensures var t := QueueRequest(s, u, p, timed); NotOvertaken(t) && DispatchesOrdered(t.history)
  {
    var t := QueueRequest(s, u, p, timed);
    var h, h' := s.history, t.history;
    forall i: nat, v | i < |h'.dispatched| && v in t.isQueued && v in h'.current
                       && Earlier(h', h'.current[v], h'.dispatched[i].request)
      ensures Exempt(h', h'.dispatched[i])
    {
      assert v != u && Earlier(h, h.current[v], h.dispatched[i].request);
    }
    forall i: nat, j: nat | i < j < |h'.dispatched| && Earlier(h', h'.dispatched[j].request, h'.dispatched[i].request)
      ensures Exempt(h', h'.dispatched[i])
    {
      assert Earlier(h, h.dispatched[j].request, h.dispatched[i].request);
    }
  }

  lemma RequestKeepsLedger(s: Port, u: User, p: Priority, timed: bool)
    requires Ledger(s)
    ensures Ledger(QueueRequest(s, u, p, timed))
  {
    if RequestStatus(s, u, timed) == Success {
      InsertKeepsIntact(s.queues, s.isQueued, p, u, AddToFront(s, u));
      RequestKeepsAccounts(s, u, p, timed);
      RequestKeepsOrder(s, u, p, timed);
      RequestKeepsOvertaking(s, u, p, timed);
    }
  }

  // ---- Dispatching ----

  ghost predicate Dispatchable(s: Port, p: Priority, k: nat) {
    && k < |s.queues[p]|
    && (p == CONNECT ==> k == 0)
    && (p < CONNECT ==> Eligible(s, s.queues[p][k]) && forall a: nat | a < k :: !Eligible(s, s.queues[p][a]))
  }

  /** The dispatched user overtakes nobody of its line, or is exempt. */
  lemma DispatchExempt(s: Port, p: Priority, k: nat, v: User)
    requires QueuesIntact(s.queues, s.isQueued) && RequestsAccounted(s) && QueuesOrdered(s.queues, s.history)
    requires HoldersBlocked(s.blocking, s.attached) && Dispatchable(s, p, k) && v in s.isQueued
    ensures var u, h := s.queues[p][k], s.history;
            && u in h.current && v in h.current && h.current[u] < |h.accepted|
            && (Earlier(h, h.current[v], h.current[u]) ==> Exempt(h, Dispatch(h.current[u], HasBlock(s.blocking, u))))
  {
    var u, h := s.queues[p][k], s.history;
    assert Holds(s.queues, p, k, u);
    assert CurrentMatches(s, u) && CurrentMatches(s, v);
    if Earlier(h, h.current[v], h.current[u]) {
      var q := h.accepted[h.current[u]].priority;
      var a: nat :| a < |s.queues[q]| && s.queues[q][a] == u;
      assert Holds(s.queues, q, a, u);
      var b: nat :| b < |s.queues[p]| && s.queues[p][b] == v;
      if b > k {
        assert Before(h, u, v);
      } else {
        assert !Eligible(s, v) && Eligible(s, u);
      }
    }
  }

  lemma DispatchKeepsOvertaking(s: Port, p: Priority, k: nat, pc: Pc)
    requires Ledger(s) && HoldersBlocked(s.blocking, s.attached) && Dispatchable(s, p, k)
    ensures var t := DispatchAt(s, p, k, pc); NotOvertaken(t) && DispatchesOrdered(t.history)
  {
    var u, t := s.queues[p][k], DispatchAt(s, p, k, pc);
    var h, h' := s.history, t.history;
    assert Holds(s.queues, p, k, u);
    DispatchExempt(s, p, k, u);
    forall i: nat, v | i < |h'.dispatched| && v in t.isQueued && v in h'.current
                       && Earlier(h', h'.current[v], h'.dispatched[i].request)
      ensures Exempt(h', h'.dispatched[i])
    {
      DispatchExempt(s, p, k, v);
      assert Earlier(h, h.current[v], h'.dispatched[i].request);
    }
    forall i: nat, j: nat | i < j < |h'.dispatched| && Earlier(h', h'.dispatched[j].request, h'.dispatched[i].request)
      ensures Exempt(h', h'.dispatched[i])
    {
      assert Earlier(h, h'.dispatched[j].request, h'.dispatched[i].request);
    }
  }

  lemma DispatchKeepsLedger(s: Port, p: Priority, k: nat, pc: Pc)
    requires Ledger(s) && HoldersBlocked(s.blocking, s.attached) && Dispatchable(s, p, k)
    ensures Ledger(DispatchAt(s, p, k, pc))
  {
    var l, t := Leave(s, p, k, Dispatched), DispatchAt(s, p, k, pc);
    LeaveKeepsLedger(s, p, k, Dispatched);
    AccountsFrame(l, t);
    OrderFrame(t.queues, l.history, t.history);
    DispatchKeepsOvertaking(s, p, k, pc);
  }

  lemma AccountsFrame(s: Port, t: Port)
    requires RequestsAccounted(s) && t.queues == s.queues && t.isQueued == s.isQueued
    requires t.history.(dispatched := s.history.dispatched) == s.history
    requires forall u | u in s.isQueued && u in s.attached :: u in t.attached && t.attached[u] == s.attached[u]
    ensures RequestsAccounted(t)
  {
    forall u | u in t.isQueued ensures CurrentMatches(t, u) {
      assert CurrentMatches(s, u);
    }
    forall r: nat ensures IsPending(t, r) == IsPending(s, r) {}
  }

  /** The ledger does not look at signals, holders or the port thread. */
  lemma LedgerFrame(s: Port, t: Port)
    requires Ledger(s) && t.queues == s.queues && t.isQueued == s.isQueued && t.history == s.history
    requires forall u | u in s.isQueued && u in s.attached :: u in t.attached && t.attached[u] == s.attached[u]
    ensures Ledger(t)
  {
    AccountsFrame(s, t);
    OvertakingFrame(s, t);
  }

  // ---- One step: the ledger ----

  lemma ScanKeepsLedger(s: Port)
    requires Ledger(s) && HoldersBlocked(s.blocking, s.attached)
    ensures Ledger(Scan(s))
  {
    var t := s.(queueStateChange := false);
    LedgerFrame(s, t);
    var r := Pick(t, HIGH);
    if r.None? {
      LedgerFrame(t, Scan(s));
    } else {
      DispatchKeepsLedger(t, r.value.0, r.value.1, Scan(s).pc);
    }
  }

  lemma ConnectThenScanKeepsLedger(s: Port)
    requires Ledger(s) && HoldersBlocked(s.blocking, s.attached)
    ensures Ledger(ConnectThenScan(s))
  {
    if s.queues[CONNECT] != [] {
      DispatchKeepsLedger(s, CONNECT, 0, InConnect(s.queues[CONNECT][0]));
    } else {
      ScanKeepsLedger(s);
    }
  }

  lemma RecordKeepsHolders(s: Port)
    requires HoldersFine(s) && s.pc.InCallback?
    ensures HoldersBlocked(RecordHolders(s.blocking, s.pc.user, s.pc.dev), s.attached)
  {
  }

  lemma CallbackDoneKeepsLedger(s: Port, u: User, d: Device)
    requires Ledger(s) && HoldersFine(s) && s.pc == InCallback(u, d)
    ensures Ledger(CallbackDone(s, u, d))
  {
    var t := s.(blocking := RecordHolders(s.blocking, u, d));
    LedgerFrame(s, t);
    RecordKeepsHolders(s);
    if t.queueStateChange {
      LedgerFrame(t, CallbackDone(s, u, d));
    } else {
      ScanKeepsLedger(t);
    }
  }

  lemma CancelKeepsLedger(s: Port, u: User)
    requires Ledger(s)
    ensures Ledger(CancelRequest(s, u))
  {
    if u in s.attached && u in s.isQueued && Locate(s.queues, u, CONNECT).Some? {
      var (p, k) := Locate(s.queues, u, CONNECT).value;
      LeaveKeepsLedger(s, p, k, Cancelled);
      LedgerFrame(Leave(s, p, k, Cancelled), CancelRequest(s, u));
    }
  }

  lemma TimeoutKeepsLedger(s: Port, u: User)
    requires Ledger(s)
    ensures Ledger(TimeoutBegin(s, u))
  {
    if u in s.isQueued && Locate(s.queues, u, CONNECT).Some? {
      var (p, k) := Locate(s.queues, u, CONNECT).value;
      LeaveKeepsLedger(s, p, k, TimedOut);
      LedgerFrame(Leave(s, p, k, TimedOut), TimeoutBegin(s, u));
    }
  }

  lemma StepKeepsLedger(s: Port, e: Step)
    requires Ledger(s) && HoldersFine(s) && Possible(s, e)
    ensures Ledger(Apply(s, e))
  {
    match e
    case Queue(u, p, timed) => RequestKeepsLedger(s, u, p, timed);
    case Cancel(u) => CancelKeepsLedger(s, u);
    case Timeout(u) => TimeoutKeepsLedger(s, u);
    case Run =>
      if s.pc.InCallback? {
        CallbackDoneKeepsLedger(s, s.pc.user, s.pc.dev);
      } else if s.pc.Woken? && PORT in s.disabled {
        LedgerFrame(s, Apply(s, e));
      } else {
        ConnectThenScanKeepsLedger(s);
      }
    case _ => LedgerFrame(s, Apply(s, e));
  }

  /** The steps that edit the queues from outside announce themselves and leave the holders alone. */
  lemma QueueStepsSignal(s: Port, e: Step)
    requires Possible(s, e) && (e.Queue? || e.Cancel? || e.Timeout?)
    ensures var t := Apply(s, e);
            && (t == s || SignalUnderway(t.signals))
            && t.blocking == s.blocking && t.attached == s.attached && t.pc == s.pc
  {
  }

  // ---- One step: the holders ----

  lemma ScanKeepsHolders(s: Port)
    requires HoldersBlocked(s.blocking, s.attached)
    ensures HoldersFine(Scan(s))
  {
  }

  lemma CallbackDoneKeepsHolders(s: Port)
    requires HoldersFine(s) && s.pc.InCallback?
    ensures HoldersFine(CallbackDone(s, s.pc.user, s.pc.dev))
  {
    var t := s.(blocking := RecordHolders(s.blocking, s.pc.user, s.pc.dev));
    RecordKeepsHolders(s);
    if !t.queueStateChange { ScanKeepsHolders(t); }
  }

  lemma UnblockKeepsHolders(s: Port, u: User, all: bool)
    requires HoldersFine(s)
    ensures HoldersFine(Unblock(s, u, all))
  {
    if all { UnblockPortKeepsHolders(s, u); } else { UnblockDeviceKeepsHolders(s, u); }
  }

  lemma UnblockPortKeepsHolders(s: Port, u: User)
    requires HoldersFine(s)
    ensures HoldersFine(Unblock(s, u, true))
  {
  }

  lemma UnblockDeviceKeepsHolders(s: Port, u: User)
    requires HoldersFine(s)
    ensures HoldersFine(Unblock(s, u, false))
  {
  }

  lemma AttachKeepsHolders(s: Port, u: User, d: Device)
    requires HoldersFine(s) && Possible(s, Attach(u, d))
    ensures HoldersFine(s.(attached := s.attached[u := d]))
  {
    assert forall v | HasBlock(s.blocking, v) :: v != u;
  }

  lemma DetachKeepsHolders(s: Port, u: User)
    requires HoldersFine(s) && !HasBlock(s.blocking, u)
    ensures HoldersFine(s.(attached := s.attached - {u}))
  {
    assert forall v | HasBlock(s.blocking, v) :: v != u;
  }

  lemma BlockKeepsHolders(s: Port, u: User, all: bool)
    requires HoldersFine(s)
    ensures HoldersFine(Block(s, u, all))
  {
  }

  lemma StepKeepsHolders(s: Port, e: Step)
    requires HoldersFine(s) && Possible(s, e)
    ensures HoldersFine(Apply(s, e))
  {
    match e
    case UnblockBy(u, all) => UnblockKeepsHolders(s, u, all);
    case Run =>
      if s.pc.InCallback? {
        CallbackDoneKeepsHolders(s);
      } else if !((s.pc.Woken? && PORT in s.disabled) || s.queues[CONNECT] != []) {
        ScanKeepsHolders(s);
      }
    case Queue(_, _, _) => QueueStepsSignal(s, e);
    case Cancel(_) => QueueStepsSignal(s, e);
    case Timeout(_) => QueueStepsSignal(s, e);
    case Attach(u, d) => AttachKeepsHolders(s, u, d);
    case Detach(u) => if Apply(s, e) != s { DetachKeepsHolders(s, u); }
    case BlockBy(u, all) => BlockKeepsHolders(s, u, all);
    case _ =>
  }

  // ---- One step: the wakeups ----

  lemma ScanIsSafe(s: Port)
    requires SignalUnderway(s.signals) || s.queues[CONNECT] == []
    ensures WakeupSafe(Scan(s))
  {
    var t := s.(queueStateChange := false);
    if Pick(t, HIGH).None? {
      forall p: Priority, a: nat | p < CONNECT && a < |s.queues[p]|
        ensures !Eligible(Scan(s), s.queues[p][a])
      {
        assert !Eligible(t, t.queues[p][a]);
      }
    }
  }

  /** A step that raises no signal makes no queued user eligible. */
  lemma EligibilityFrame(s: Port, t: Port)
    requires Ledger(s) && WakeupSafe(s)
    requires t.pc == s.pc && t.queues == s.queues && t.disabled == s.disabled
    requires t.queueStateChange == s.queueStateChange && (SignalUnderway(s.signals) ==> SignalUnderway(t.signals))
    requires t.blocking.portHolder == s.blocking.portHolder && t.blocking.deviceHolder == s.blocking.deviceHolder
    requires forall u | u in s.isQueued && u in s.attached :: u in t.attached && t.attached[u] == s.attached[u]
    ensures WakeupSafe(t)
  {
    forall p: Priority, a: nat | p < CONNECT && a < |s.queues[p]|
      ensures Eligible(t, s.queues[p][a]) == Eligible(s, s.queues[p][a])
    {
      assert Holds(s.queues, p, a, s.queues[p][a]) && CurrentMatches(s, s.queues[p][a]);
    }
  }

  lemma PortThreadIsSafe(s: Port)
    requires WakeupSafe(s)
    ensures WakeupSafe(PortThread(s))
  {
    match s.pc
    case Waiting =>
    case InCallback(u, d) =>
      var t := s.(blocking := RecordHolders(s.blocking, u, d));
      if !t.queueStateChange { ScanIsSafe(t); }
    case _ =>
      if s.queues[CONNECT] == [] { ScanIsSafe(s); }
  }

  lemma UnblockIsSafe(s: Port, u: User, all: bool)
    requires Ledger(s) && WakeupSafe(s)
    ensures WakeupSafe(Unblock(s, u, all))
  {
    var t := Unblock(s, u, all);
    if !SignalUnderway(t.signals) { EligibilityFrame(s, t); }
  }

  lemma StepKeepsWakeup(s: Port, e: Step)
    requires Ledger(s) && WakeupSafe(s) && Possible(s, e)
    ensures WakeupSafe(Apply(s, e))
  {
    match e
    case Run => PortThreadIsSafe(s);
    case UnblockBy(u, all) => UnblockIsSafe(s, u, all);
    case Queue(_, _, _) => QueueStepsSignal(s, e);
    case Cancel(_) => QueueStepsSignal(s, e);
    case Timeout(_) => QueueStepsSignal(s, e);
    case Attach(_, _) => EligibilityFrame(s, Apply(s, e));
    case Detach(_) => EligibilityFrame(s, Apply(s, e));
    case BlockBy(_, _) => EligibilityFrame(s, Apply(s, e));
    case _ =>
  }

  lemma StepKeeps(s: Port, e: Step)
    requires Inv(s) && Possible(s, e)
    ensures Inv(Apply(s, e))
  {
    StepKeepsLedger(s, e);
    StepKeepsHolders(s, e);
    StepKeepsWakeup(s, e);
  }

  lemma {:induction false} RunKeeps(s: Port, run: seq<Step>)
    requires Inv(s) && ValidRun(s, run)
    ensures Inv(Exec(s, run))
    decreases |run|
  {
    if run != [] {
      StepKeeps(s, run[0]);
      RunKeeps(Apply(s, run[0]), run[1..]);
    }
  }
}
