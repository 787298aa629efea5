/**
 The critical sections of asynManager as they are written: one object per port
 whose methods edit the queue lists, the flags and the holders in place. Each
 method is proved to perform the corresponding step of `PortScheduler`.
 */
module PortManager {
  import opened Basics
  import opened PortScheduler

  function CountedDown(n: nat, down: bool): nat { if down && n > 0 then n - 1 else n }

  class PortPvt {
    var attached: map<User, Device>
    var disabled: set<Device>
    var queueList: Queues
    var isQueued: set<User>
    var queueStateChange: bool
    var blockPortCount: multiset<User>
    var blockDeviceCount: multiset<User>
    var portHolder: Option<User>
    var deviceHolder: map<Device, User>
    ghost var pc: Pc
    ghost var signals: Signals
    ghost var history: History

    ghost function View(): Port
      reads this
    {
      Port(attached, disabled, queueList, isQueued, queueStateChange, pc,
           Blocking(blockPortCount, blockDeviceCount, portHolder, deviceHolder), signals, history)
    }

    constructor ()
      ensures View() == INITIAL
    {
      attached, disabled := map[], {};
      queueList, isQueued, queueStateChange := [[], [], [], []], {}, false;
      blockPortCount, blockDeviceCount := multiset{}, multiset{};
      portHolder, deviceHolder := None, map[];
      pc, signals, history := INITIAL.pc, INITIAL.signals, INITIAL.history;
    }

    /** The queueing part of queueRequest on a port that can block. */
    method Queue(u: User, priority: Priority, timed: bool) returns (status: Status)
      modifies this
      ensures status == RequestStatus(old(View()), u, timed)
      ensures status == Success <==> old(u in attached && u.HasProcess() && PORT !in disabled && u !in isQueued && (timed ==> u.HasTimeout()))
      ensures status == Disabled <==> old(u in attached && u.HasProcess() && PORT in disabled)
      ensures View() == QueueRequest(old(View()), u, priority, timed)
    {
      if u !in attached || !u.HasProcess() { return Error; }
      if PORT in disabled { return Disabled; }
      if u in isQueued { return Error; }
      if timed && !u.HasTimeout() { return Error; }
      var dev := attached[u];
      var addToFront := HoldsBlock(u, dev);
      ghost var before := View();
      if addToFront {
        queueList := queueList[priority := [u] + queueList[priority]];
      } else {
        queueList := queueList[priority := queueList[priority] + [u]];
      }
      queueStateChange := true;
      isQueued := isQueued + {u};
      signals := OneMoreSignal(signals);
      history := QueueRequest(before, u, priority, timed).history;
      return Success;
    }

    method HoldsBlock(u: User, dev: Device) returns (addToFront: bool)
      requires u in attached && attached[u] == dev
      ensures addToFront == AddToFront(View(), u)
    {
      addToFront := false;
      if blockPortCount[u] > 0 || blockDeviceCount[u] > 0 {
        if portHolder == Some(u) { addToFront := true; }
        if dev in deviceHolder && deviceHolder[dev] == u { addToFront := true; }
      }
    }

    /** The loops of cancelRequest and queueTimeoutCallback that look for the
        user from the connect queue down and delete it. */
    method DeleteFromQueues(u: User) returns (found: bool)
      modifies this`queueList
      ensures found == Locate(old(queueList), u, CONNECT).Some?
      ensures queueList == match Locate(old(queueList), u, CONNECT)
                           case None => old(queueList)
                           case Some((p, k)) => Delete(old(queueList), p, k)
    {
      var i: int := CONNECT;
      while i >= 0
        invariant -1 <= i <= CONNECT && queueList == old(queueList)
        invariant Locate(queueList, u, CONNECT) == Locate(queueList, u, i)
      {
        var k := 0;
        while k < |queueList[i]|
          invariant 0 <= k <= |queueList[i]| && queueList == old(queueList)
          invariant forall j | 0 <= j < k :: queueList[i][j] != u
        {
          if queueList[i][k] == u {
            assert IndexOf(queueList[i], u) == k;
            queueList := queueList[i := queueList[i][..k] + queueList[i][k + 1..]];
            return true;
          }
          k := k + 1;
        }
        i := i - 1;
      }
      return false;
    }

    method Cancel(u: User) returns (wasQueued: bool)
      modifies this
      ensures View() == CancelRequest(old(View()), u)
      ensures wasQueued == (old(u in attached && u in isQueued && Locate(queueList, u, CONNECT).Some?))
    {
      if u !in attached || u !in isQueued { return false; }
      ghost var before := View();
      wasQueued := DeleteFromQueues(u);
      if !wasQueued { return; }
      isQueued := isQueued - {u};
      queueStateChange := true;
      signals := OneMoreSignal(signals);
      history := Settle(history, u, Cancelled);
    }

    method Timeout(u: User)
      modifies this
      ensures View() == TimeoutBegin(old(View()), u)
    {
      if u !in isQueued { return; }
      var found := DeleteFromQueues(u);
      if !found { return; }
      isQueued := isQueued - {u};
      queueStateChange := true;
      signals := if u.HasTimeout() then signals.(timing := Some(u)) else OneMoreSignal(signals);
      history := Settle(history, u, TimedOut);
    }

    method BlockProcessCallback(u: User, allDevices: bool) returns (ok: bool)
      modifies this`blockPortCount, this`blockDeviceCount
      ensures View() == Block(old(View()), u, allDevices)
      ensures ok == (u in attached && u !in isQueued)
      ensures blockPortCount == old(blockPortCount)[u := old(blockPortCount)[u] + if ok && allDevices then 1 else 0]
      ensures blockDeviceCount == old(blockDeviceCount)[u := old(blockDeviceCount)[u] + if ok && !allDevices then 1 else 0]
    {
      if u !in attached || u in isQueued { return false; }
      if allDevices {
        blockPortCount := blockPortCount[u := blockPortCount[u] + 1];
        assert blockPortCount == old(blockPortCount) + multiset{u};
      } else {
        blockDeviceCount := blockDeviceCount[u := blockDeviceCount[u] + 1];
        assert blockDeviceCount == old(blockDeviceCount) + multiset{u};
      }
      return true;
    }

    method UnblockProcessCallback(u: User, allDevices: bool) returns (wasOwner: bool)
      modifies this
      ensures View() == Unblock(old(View()), u, allDevices)
      ensures blockPortCount == old(blockPortCount)[u := CountedDown(old(blockPortCount)[u], allDevices && old(u in attached && u !in isQueued))]
      ensures blockDeviceCount == old(blockDeviceCount)[u := CountedDown(old(blockDeviceCount)[u], !allDevices && old(u in attached && u !in isQueued))]
      ensures wasOwner == (old(portHolder) != portHolder || old(deviceHolder) != deviceHolder)
    {
      wasOwner := false;
      if u !in attached || u in isQueued { return; }
      if (if allDevices then blockPortCount[u] else blockDeviceCount[u]) == 0 { return; }
      if allDevices { wasOwner := CountDownPort(u); } else { wasOwner := CountDownDevice(u, attached[u]); }
      if wasOwner { signals := OneMoreSignal(signals); }
    }

    method CountDownPort(u: User) returns (wasOwner: bool)
      requires blockPortCount[u] > 0
      modifies this`blockPortCount, this`portHolder
      ensures View().blocking == UnblockPort(old(View().blocking), u)
      ensures blockPortCount == old(blockPortCount)[u := old(blockPortCount)[u] - 1]
      ensures wasOwner == (old(portHolder) != portHolder)
    {
      blockPortCount := blockPortCount[u := blockPortCount[u] - 1];
      assert blockPortCount == old(blockPortCount) - multiset{u};
      wasOwner := blockPortCount[u] == 0 && portHolder == Some(u);
      if wasOwner { portHolder := None; }
    }

    method CountDownDevice(u: User, dev: Device) returns (wasOwner: bool)
      requires blockDeviceCount[u] > 0
      modifies this`blockDeviceCount, this`deviceHolder
      ensures View().blocking == UnblockDevice(old(View().blocking), u, dev)
      ensures blockDeviceCount == old(blockDeviceCount)[u := old(blockDeviceCount)[u] - 1]
      ensures wasOwner == (old(deviceHolder) != deviceHolder)
    {
      blockDeviceCount := blockDeviceCount[u := blockDeviceCount[u] - 1];
      assert blockDeviceCount == old(blockDeviceCount) - multiset{u};
      wasOwner := blockDeviceCount[u] == 0 && dev in deviceHolder && deviceHolder[dev] == u;
      if wasOwner { deviceHolder := deviceHolder - {dev}; }
    }

    /** The two nested loops of portThread over the priorities and their queues. */
    method FindNext() returns (found: bool, p: Priority, k: nat)
      ensures found == Pick(View(), HIGH).Some?
      ensures found ==> Pick(View(), HIGH) == Some((p, k))
    {
      found, p, k := false, LOW, 0;
      var i: int := HIGH;
      while i >= 0
        invariant -1 <= i <= HIGH
        invariant Pick(View(), HIGH) == Pick(View(), i)
      {
        k := 0;
        while k < |queueList[i]|
          invariant k <= |queueList[i]|
          invariant forall j | 0 <= j < k :: !Eligible(View(), queueList[i][j])
        {
          var u := queueList[i][k];
          if u in attached && attached[u] !in disabled {
            var dev := attached[u];
            if (portHolder.None? || portHolder.value == u) && (dev !in deviceHolder || deviceHolder[dev] == u) {
              assert FirstEligible(View(), queueList[i]) == k;
              return true, i, k;
            }
          }
          k := k + 1;
        }
        i := i - 1;
      }
    }

    /** The port thread deletes the user it is about to call back from its queue. */
    method TakeOut(p: Priority, k: nat, ghost next: Pc)
      requires k < |queueList[p]|
      modifies this
      ensures View() == DispatchAt(old(View()), p, k, next)
    {
      ghost var after := DispatchAt(View(), p, k, next);
      isQueued := isQueued - {queueList[p][k]};
      queueList := queueList[p := queueList[p][..k] + queueList[p][k + 1..]];
      pc, history := after.pc, after.history;
    }

    /** One pass of the inner loop of portThread: the next user to call back. */
    method ScanQueues() returns (next: Option<User>)
      modifies this
      ensures View() == Scan(old(View()))
      ensures next == if pc.InCallback? then Some(pc.user) else None
    {
      queueStateChange := false;
      var found, p, k := FindNext();
      if !found {
        pc := Waiting;
        return None;
      }
      var u := queueList[p][k];
      TakeOut(p, k, InCallback(u, attached[u]));
      return Some(u);
    }

    /** One pass of the loop over the connect queue, or the scan when it is empty. */
    method ConnectOrScan() returns (next: Option<User>)
      modifies this
      ensures View() == ConnectThenScan(old(View()))
      ensures next == if pc.InCallback? || pc.InConnect? then Some(pc.user) else None
    {
      if |queueList[CONNECT]| > 0 {
        var u := queueList[CONNECT][0];
        TakeOut(CONNECT, 0, InConnect(u));
        return Some(u);
      }
      next := ScanQueues();
    }

    /** What portThread does after a process callback. */
    method AfterCallback(u: User, dev: Device) returns (next: Option<User>)
      modifies this
      ensures View() == CallbackDone(old(View()), u, dev)
    {
      if blockPortCount[u] > 0 { portHolder := Some(u); }
      if blockDeviceCount[u] > 0 { deviceHolder := deviceHolder[dev := u]; }
      if queueStateChange {
        pc := Waiting;
        return None;
      }
      next := ScanQueues();
    }
  }
}
