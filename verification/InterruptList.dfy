/**
 The interrupt callback list of asynManager. While a driver walks the list
 between interruptStart and interruptEnd, callers that want to add or remove a
 node queue up on a second list and wait for an event of their node.
 */
module InterruptList {

  type Node = nat
  datatype Wish = Adding | Removing

  datatype Base = Base(
    callbackList: seq<Node>,
    addRemoveList: seq<Node>,
    callbackActive: bool,
    listModified: bool,
    isOnList: set<Node>,
    isOnAddRemoveList: set<Node>,
    callbackDone: set<Node>,            // nodes whose event is full
    waiting: map<Node, Wish>)           // callers blocked on their node's event

  const EMPTY := Base([], [], false, false, {}, {}, {}, map[])

  function IndexIn(s: seq<Node>, n: Node): (k: nat)
    ensures k <= |s| && (k < |s| <==> n in s) && (k < |s| ==> s[k] == n)
  {
    if s == [] || s[0] == n then 0 else 1 + IndexIn(s[1..], n)
  }

  function Without(s: seq<Node>, n: Node): seq<Node> {
    var k := IndexIn(s, n);
    if k < |s| then s[..k] + s[k + 1..] else s
  }

  function Start(b: Base): Base { b.(callbackActive := true, listModified := false) }

  /** interruptEnd: every node on the add/remove list is taken off and its event signalled. */
  function End(b: Base): Base {
    if !b.listModified then b.(callbackActive := false)
    else b.(callbackActive := false, addRemoveList := [],
            isOnAddRemoveList := b.isOnAddRemoveList - (set n | n in b.addRemoveList),
            callbackDone := b.callbackDone + (set n | n in b.addRemoveList))
  }

  /** One pass of the loop in addInterruptUser and removeInterruptUser. */
  function Attempt(b: Base, n: Node, w: Wish): Base {
    if b.callbackActive then
      if n in b.isOnAddRemoveList then b.(waiting := b.waiting - {n})
      else b.(addRemoveList := b.addRemoveList + [n], isOnAddRemoveList := b.isOnAddRemoveList + {n},
              listModified := true, waiting := b.waiting[n := w])
    else if w.Adding? then
      b.(callbackList := b.callbackList + [n], isOnList := b.isOnList + {n}, waiting := b.waiting - {n})
    else
      b.(callbackList := Without(b.callbackList, n), isOnList := b.isOnList - {n}, waiting := b.waiting - {n})
  }

  function Call(b: Base, n: Node, w: Wish): Base {
    if w.Adding? == (n in b.isOnList) then b else Attempt(b, n, w)
  }

  datatype Step = DoStart | DoEnd | DoCall(node: Node, wish: Wish) | DoWake(node: Node)

  /** Start and end alternate, and there is one pending call per node. */
  predicate Possible(b: Base, e: Step) {
    match e
    case DoStart => !b.callbackActive
    case DoEnd => b.callbackActive
    case DoCall(n, _) => n !in b.waiting
    case DoWake(n) => n in b.waiting && n in b.callbackDone
  }

  function Apply(b: Base, e: Step): Base
    requires Possible(b, e)
  {
    match e
    case DoStart => Start(b)
    case DoEnd => End(b)
    case DoCall(n, w) => Call(b, n, w)
    case DoWake(n) => Attempt(b.(callbackDone := b.callbackDone - {n}), n, b.waiting[n])
  }

  predicate NoDuplicates(s: seq<Node>) { forall i, j | 0 <= i < j < |s| :: s[i] != s[j] }

  ghost predicate ListsIntact(b: Base) {
    && NoDuplicates(b.callbackList) && NoDuplicates(b.addRemoveList)
    && (forall n :: n in b.callbackList <==> n in b.isOnList)
    && (forall n :: n in b.addRemoveList <==> n in b.isOnAddRemoveList)
  }

  ghost predicate WaitersServed(b: Base) {
    && (b.addRemoveList != [] ==> b.callbackActive && b.listModified)
    && (forall n | n in b.waiting :: n in b.addRemoveList <==> n !in b.callbackDone)
    && (forall n | n in b.addRemoveList || n in b.callbackDone :: n in b.waiting)
    && (forall n | n in b.waiting :: b.waiting[n].Adding? <==> n !in b.isOnList)
  }

  ghost predicate Inv(b: Base) { ListsIntact(b) && WaitersServed(b) }

  lemma WithoutRemoves(s: seq<Node>, n: Node)
    requires NoDuplicates(s)
    ensures NoDuplicates(Without(s, n))
    ensures forall m :: m in Without(s, n) <==> m in s && m != n
  {
    var k, t := IndexIn(s, n), Without(s, n);
    if k < |s| {
      assert forall i | 0 <= i < |t| :: t[i] == s[if i < k then i else i + 1];
      forall m | m in s && m != n ensures m in t {
        var i :| 0 <= i < |s| && s[i] == m;
        assert t[if i < k then i else i - 1] == m;
      }
    }
  }

  /** One pass of a caller that is neither on the add/remove list nor signalled. */
  lemma AttemptKeeps(b: Base, n: Node, w: Wish)
    requires ListsIntact(b) && WaitersServed(b.(waiting := b.waiting - {n}))
    requires n !in b.addRemoveList && n !in b.callbackDone && (w.Adding? <==> n !in b.isOnList)
    ensures Inv(Attempt(b, n, w))
  {
    WithoutRemoves(b.callbackList, n);
  }

  lemma StepKeeps(b: Base, e: Step)
    requires Inv(b) && Possible(b, e)
    ensures Inv(Apply(b, e))
  {
    match e
    case DoCall(n, w) =>
      if Apply(b, e) != b { AttemptKeeps(b, n, w); }
    case DoWake(n) => AttemptKeeps(b.(callbackDone := b.callbackDone - {n}), n, b.waiting[n]);
    case _ =>
  }

  predicate ValidRun(b: Base, run: seq<Step>)
    decreases |run|
  {
    run == [] || (Possible(b, run[0]) && ValidRun(Apply(b, run[0]), run[1..]))
  }

  function Exec(b: Base, run: seq<Step>): Base
    requires ValidRun(b, run)
    decreases |run|
  {
    if run == [] then b else Exec(Apply(b, run[0]), run[1..])
  }

  lemma {:induction false} RunKeeps(b: Base, run: seq<Step>)
    requires Inv(b) && ValidRun(b, run)
    ensures Inv(Exec(b, run))
    decreases |run|
  {
    if run != [] {
      StepKeeps(b, run[0]);
      RunKeeps(Apply(b, run[0]), run[1..]);
    }
  }

  /** The list that the driver walks does not change until interruptEnd. */
  lemma {:induction false} ListIsFrozen(b: Base, run: seq<Step>)
    requires ValidRun(b, run) && b.callbackActive && DoEnd !in run
    ensures Exec(b, run).callbackList == b.callbackList && Exec(b, run).callbackActive
    decreases |run|
  {
    if run != [] {
      assert run[0] != DoEnd;
      ListIsFrozen(Apply(b, run[0]), run[1..]);
    }
  }

  /** In every reachable state a node is on the add/remove list only while a walk
      is active and flagged, a blocked caller is on that list or already
      signalled, and the callback list holds each added node once. */
  lemma NoCallerIsForgotten(run: seq<Step>, n: Node)
    requires ValidRun(EMPTY, run)
    ensures var b := Exec(EMPTY, run);
            && (n in b.addRemoveList ==> b.callbackActive && b.listModified)
            && (n in b.waiting <==> n in b.addRemoveList || n in b.callbackDone)
            && !(n in b.addRemoveList && n in b.callbackDone)
            && (n in b.callbackList <==> n in b.isOnList) && NoDuplicates(b.callbackList)
            && (!b.callbackActive && n in b.waiting ==> n in b.callbackDone)
  {
    RunKeeps(EMPTY, run);
  }

  // ---- The list is what the calls ask for ----

  /** A call of addInterruptUser or removeInterruptUser that did its work. */
  datatype Done = Done(node: Node, wish: Wish)

  /** A call does its work at once or when it is woken, in any case outside a
      walk; a call that finds nothing to do is refused. */
  function DoneBy(b: Base, e: Step): seq<Done>
    requires Possible(b, e)
  {
    match e
    case DoCall(n, w) => if b.callbackActive || (w.Adding? <==> n in b.callbackList) then [] else [Done(n, w)]
    case DoWake(n) => if b.callbackActive then [] else [Done(n, b.waiting[n])]
    case _ => []
  }

  function AllDone(b: Base, run: seq<Step>): seq<Done>
    requires ValidRun(b, run)
    decreases |run|
  {
    if run == [] then [] else DoneBy(b, run[0]) + AllDone(Apply(b, run[0]), run[1..])
  }

  predicate Mentions(ds: seq<Done>, n: Node) { exists i :: 0 <= i < |ds| && ds[i].node == n }

  /** The nodes whose last call was an add, in the order of these calls. */
  function Added(ds: seq<Done>): seq<Node> {
    if ds == [] then []
    else First(ds[0], ds[1..]) + Added(ds[1..])
  }

  /** The list without a node, the order of the others kept. */
  function Filtered(s: seq<Node>, n: Node): seq<Node> {
    if s == [] then [] else (if s[0] == n then [] else [s[0]]) + Filtered(s[1..], n)
  }

  lemma {:induction false} FilteredAbsent(s: seq<Node>, n: Node)
    requires n !in s
    ensures Filtered(s, n) == s
  {
    if s != [] { FilteredAbsent(s[1..], n); }
  }

  lemma WithoutStep(s: seq<Node>, n: Node)
    requires s != [] && s[0] != n
    ensures Without(s, n) == [s[0]] + Without(s[1..], n)
  {
    var k := IndexIn(s[1..], n);
    assert IndexIn(s, n) == k + 1;
    if k + 1 < |s| { CutsOut(s, k); }
  }

  lemma CutsOut(s: seq<Node>, k: nat)
    requires k + 1 < |s|
    ensures s[..k + 1] + s[k + 1 + 1..] == [s[0]] + (s[1..][..k] + s[1..][k + 1..])
  {
    assert s[1..][..k] == s[1..k + 1] && s[1..][k + 1..] == s[k + 1 + 1..];
    assert s[..k + 1] == [s[0]] + s[1..k + 1];
  }

  lemma {:induction false} WithoutIsFiltered(s: seq<Node>, n: Node)
    requires NoDuplicates(s)
    ensures Without(s, n) == Filtered(s, n)
  {
    if s != [] {
      assert NoDuplicates(s[1..]) && s[0] !in s[1..];
      if s[0] == n {
        assert s[..0] + s[1..] == s[1..];
        FilteredAbsent(s[1..], n);
      } else {
        WithoutStep(s, n);
        WithoutIsFiltered(s[1..], n);
      }
    }
  }

  lemma FilteredConcat(s: seq<Node>, t: seq<Node>, n: Node)
    requires |s| <= 1
    ensures Filtered(s + t, n) == Filtered(s, n) + Filtered(t, n)
  {
    if s == [] {
      assert s + t == t;
    } else {
      assert (s + t)[1..] == t;
    }
  }

  lemma MentionsNext(ds: seq<Done>, d: Done, n: Node)
    ensures Mentions(ds + [d], n) <==> Mentions(ds, n) || d.node == n
  {
    if Mentions(ds, n) {
      var i :| 0 <= i < |ds| && ds[i].node == n;
      assert (ds + [d])[i].node == n;
    }
    assert (ds + [d])[|ds|] == d;
  }

  /** The first call's node, if its last call was this add. */
  function First(d: Done, rest: seq<Done>): seq<Node> {
    if d.wish.Adding? && !Mentions(rest, d.node) then [d.node] else []
  }

  lemma FirstNext(first: Done, rest: seq<Done>, d: Done)
    ensures First(first, rest + [d]) == Filtered(First(first, rest), d.node)
  {
    MentionsNext(rest, d, first.node);
  }

  /** One more call moves its node to the end, or takes it out. */
  lemma {:induction false} AddedNext(ds: seq<Done>, d: Done)
    ensures Added(ds + [d]) == Filtered(Added(ds), d.node) + if d.wish.Adding? then [d.node] else []
  {
    if ds == [] {
      assert [d][1..] == [];
    } else {
      var rest := ds[1..];
      assert (ds + [d])[1..] == rest + [d];
      AddedNext(rest, d);
      FirstNext(ds[0], rest, d);
      FilteredConcat(First(ds[0], rest), Added(rest), d.node);
    }
  }

  lemma StepDoes(b: Base, e: Step)
    requires Inv(b) && Possible(b, e)
    ensures var ds := DoneBy(b, e);
            Apply(b, e).callbackList
              == if ds == [] then b.callbackList
                 else Filtered(b.callbackList, ds[0].node) + if ds[0].wish.Adding? then [ds[0].node] else []
  {
    var ds := DoneBy(b, e);
    if ds != [] {
      if ds[0].wish.Adding? {
        FilteredAbsent(b.callbackList, ds[0].node);
      } else {
        WithoutIsFiltered(b.callbackList, ds[0].node);
      }
    }
  }

  lemma StepAdds(b: Base, e: Step, ds: seq<Done>)
    requires Inv(b) && Possible(b, e) && b.callbackList == Added(ds)
    ensures Apply(b, e).callbackList == Added(ds + DoneBy(b, e))
  {
    var one := DoneBy(b, e);
    StepDoes(b, e);
    if one == [] {
      assert ds + one == ds;
    } else {
      assert one == [one[0]];
      AddedNext(ds, one[0]);
    }
  }

  lemma ThreeParts(a: seq<Done>, b: seq<Done>, c: seq<Done>)
    ensures a + (b + c) == a + b + c && a + [] == a
  {
  }

  lemma {:induction false} RunDoes(b: Base, run: seq<Step>, ds: seq<Done>)
    requires Inv(b) && ValidRun(b, run) && b.callbackList == Added(ds)
    ensures Exec(b, run).callbackList == Added(ds + AllDone(b, run))
    decreases |run|
  {
    if run == [] {
      ThreeParts(ds, [], []);
    } else {
      StepAdds(b, run[0], ds);
      StepKeeps(b, run[0]);
      RunDoes(Apply(b, run[0]), run[1..], ds + DoneBy(b, run[0]));
      ThreeParts(ds, DoneBy(b, run[0]), AllDone(Apply(b, run[0]), run[1..]));
    }
  }

  /** In every reachable state the callback list holds just the nodes whose last
      call that did its work was an add, in the order in which these were done. */
  lemma ListFollowsCalls(run: seq<Step>)
    requires ValidRun(EMPTY, run)
    ensures Exec(EMPTY, run).callbackList == Added(AllDone(EMPTY, run))
  {
    RunDoes(EMPTY, run, []);
    assert [] + AllDone(EMPTY, run) == AllDone(EMPTY, run);
  }

  /** A caller that returns has had its wish: a woken one that need not wait
      again, and one that was not made to wait at all. */
  lemma ReturnsWithItsWish(b: Base, n: Node, w: Wish)
    requires Inv(b)
    ensures n in b.waiting && n in b.callbackDone ==>
              var t := Apply(b, DoWake(n));
              if b.callbackActive then n in t.addRemoveList && n in t.waiting && t.waiting[n] == b.waiting[n]
              else n !in t.waiting && (n in t.isOnList <==> b.waiting[n].Adding?)
    ensures n !in b.waiting ==>
              var t := Apply(b, DoCall(n, w));
              if b.callbackActive && (w.Adding? <==> n !in b.isOnList)
              then n in t.addRemoveList && n in t.waiting && t.waiting[n] == w
              else n !in t.waiting && (n in t.isOnList <==> w.Adding?)
  {
    WithoutRemoves(b.callbackList, n);
  }

  // ---- Without alternation ----

  /** Steps of callers only, between a nested start and the next end. */
  predicate CallsOnly(run: seq<Step>) { DoStart !in run && DoEnd !in run }

  /** What still holds after a nested start: `listModified` may have been lost. */
  ghost predicate Nested(b: Base) {
    && b.callbackActive
    && (forall n :: n in b.addRemoveList <==> n in b.isOnAddRemoveList)
    && (forall n | n in b.waiting :: n in b.addRemoveList <==> n !in b.callbackDone)
    && (forall n | n in b.addRemoveList || n in b.callbackDone :: n in b.waiting)
  }

  lemma CallKeepsNested(b: Base, e: Step)
    requires Nested(b) && Possible(b, e) && e != DoStart && e != DoEnd
    ensures var d := Apply(b, e);
            && Nested(d) && b.addRemoveList <= d.addRemoveList
            && (d.listModified <==> b.listModified || d.addRemoveList != b.addRemoveList)
  {
  }

  /** During calls the flag is set exactly when somebody enlists. */
  lemma {:induction false} CallsKeepNested(b: Base, run: seq<Step>)
    requires Nested(b) && ValidRun(b, run) && CallsOnly(run)
    ensures var d := Exec(b, run);
            && Nested(d) && b.addRemoveList <= d.addRemoveList
            && (d.listModified <==> b.listModified || d.addRemoveList != b.addRemoveList)
    decreases |run|
  {
    if run != [] {
      CallKeepsNested(b, run[0]);
      CallsKeepNested(Apply(b, run[0]), run[1..]);
    }
  }

  /** A second interruptStart clears listModified. After any calls the next
      interruptEnd wakes every waiter exactly if nobody was queued at that start
      or somebody has queued up since. */
  lemma NestedStartForgets(b: Base, run: seq<Step>)
    requires Inv(b) && b.callbackActive && ValidRun(Start(b), run) && CallsOnly(run)
    ensures var d := Exec(Start(b), run);
            (forall n | n in d.waiting :: n in End(d).callbackDone)
            <==> b.addRemoveList == [] || d.addRemoveList != b.addRemoveList
  {
    CallsKeepNested(Start(b), run);
    var d := Exec(Start(b), run);
    if d.addRemoveList != [] { assert d.addRemoveList[0] in d.waiting; }
  }

  /** Both outcomes occur: without a call in between the first adder is not woken, with one both are. */
  lemma NestedStartBothWays()
    ensures var b := Call(Start(EMPTY), 1, Adding);
            var d, e := End(Start(b)), End(Call(Start(b), 2, Adding));
            && Inv(b) && 1 in d.waiting && 1 !in d.callbackDone && !d.callbackActive
            && 1 in e.callbackDone && 2 in e.callbackDone
  {
    StepKeeps(EMPTY, DoStart);
    StepKeeps(Start(EMPTY), DoCall(1, Adding));
  }

  /** The critical sections as they are written. */
  class InterruptBase {
    var callbackList: seq<Node>
    var addRemoveList: seq<Node>
    var callbackActive: bool
    var listModified: bool
    var isOnList: set<Node>
    var isOnAddRemoveList: set<Node>
    var callbackDone: set<Node>
    ghost var waiting: map<Node, Wish>

    ghost function View(): Base
      reads this
    {
      Base(callbackList, addRemoveList, callbackActive, listModified,
           isOnList, isOnAddRemoveList, callbackDone, waiting)
    }

    method InterruptStart()
      modifies this`callbackActive, this`listModified
      ensures View() == Start(old(View()))
    {
      callbackActive := true;
      listModified := false;
    }

    /** What addInterruptUser does each time it holds the lock; when it must wait
        it leaves its node on the add/remove list. */
    method AddPass(node: Node) returns (mustWait: bool)
      modifies this
      ensures View() == Attempt(old(View()), node, Adding)
      ensures mustWait == (old(callbackActive) && node !in old(isOnAddRemoveList))
      ensures callbackList == old(callbackList) + if old(callbackActive) then [] else [node]
      ensures isOnList == old(isOnList) + if old(callbackActive) then {} else {node}
    {
      if callbackActive {
        mustWait := Enlist(node, Adding);
        return;
      }
      callbackList := callbackList + [node];
      isOnList := isOnList + {node};
      waiting := waiting - {node};
      return false;
    }

    method RemovePass(node: Node) returns (mustWait: bool)
      modifies this
      ensures View() == Attempt(old(View()), node, Removing)
      ensures mustWait == (old(callbackActive) && node !in old(isOnAddRemoveList))
      ensures old(callbackActive) ==> callbackList == old(callbackList) && isOnList == old(isOnList)
      ensures !old(callbackActive) && NoDuplicates(old(callbackList)) ==> callbackList == Filtered(old(callbackList), node)
      ensures !old(callbackActive) ==> isOnList == old(isOnList) - {node}
    {
      if callbackActive {
        mustWait := Enlist(node, Removing);
        return;
      }
      if NoDuplicates(callbackList) { WithoutIsFiltered(callbackList, node); }
      callbackList := Without(callbackList, node);
      isOnList := isOnList - {node};
      waiting := waiting - {node};
      return false;
    }

    method Enlist(node: Node, ghost wish: Wish) returns (enlisted: bool)
      requires callbackActive
      modifies this
      ensures View() == Attempt(old(View()), node, wish)
      ensures enlisted == (node !in old(isOnAddRemoveList))
    {
      if node in isOnAddRemoveList {
        waiting := waiting - {node};
        return false;
      }
      addRemoveList := addRemoveList + [node];
      isOnAddRemoveList := isOnAddRemoveList + {node};
      listModified := true;
      waiting := waiting[node := wish];
      return true;
    }

    method InterruptEnd()
      modifies this
      ensures View() == End(old(View()))
    {
      callbackActive := false;
      if !listModified { return; }
      ghost var taken := 0;
      while |addRemoveList| > 0
        invariant taken <= |old(addRemoveList)| && addRemoveList == old(addRemoveList)[taken..]
        invariant isOnAddRemoveList == old(isOnAddRemoveList) - (set n | n in old(addRemoveList)[..taken])
        invariant callbackDone == old(callbackDone) + (set n | n in old(addRemoveList)[..taken])
        invariant View() == old(View()).(callbackActive := false, addRemoveList := addRemoveList,
                                         isOnAddRemoveList := isOnAddRemoveList, callbackDone := callbackDone)
        decreases |addRemoveList|
      {
        var node := addRemoveList[0];
        assert old(addRemoveList)[..taken + 1] == old(addRemoveList)[..taken] + [node];
        addRemoveList := addRemoveList[1..];
        isOnAddRemoveList := isOnAddRemoveList - {node};
        callbackDone := callbackDone + {node};
        taken := taken + 1;
      }
      assert old(addRemoveList)[..taken] == old(addRemoveList);
    }
  }
}
