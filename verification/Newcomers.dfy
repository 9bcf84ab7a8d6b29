/** How a loop gets its lock when nothing fails: as soon as no node of the lock is left in the tree. */
module Newcomers {
  import opened Options
  import opened LockProtocol
  import opened LockSafety
  import opened LockTheorems
  import opened ConnectionLoops
  import opened LoopSafety
  import opened LoopTheorems
  import opened FaultFree
  import opened SmoothRuns

  // ----- a loop gets the lock -----

  /** `n` may come next in its directory, and would be the lowest: all earlier ones are gone. */
  ghost predicate Room(w: World, n: Node) {
    && w.expired == {} && Timely(w) && n !in w.births
    && forall m <- w.births | m.id == n.id :: m.number < n.number && m in w.deaths
  }

  /** `n` has been planted. */
  ghost predicate Grown(w0: World, w: World, n: Node) {
    && n in w.births && w.births.Keys == w0.births.Keys + {n} && Live(w, n) && w.births[n].at == w.now
    && w.deaths == w0.deaths && w.expired == w0.expired && IsLowestAt(w, n, w.now)
  }

  lemma Calls(lee: Leeway, s0: System, i: Instance, l: Lock) returns (s: System)
    requires Scene(lee, s0, i, WantLock, l) && l.threads[MAIN].Ready? && l.lockPath.None?
    ensures Scene(lee, s, i, Trying, Goto(l, MAIN, Creating)) && Frame(s0, s, i) && SameTree(s0.locks, s.locks)
  {
    hide SmoothlyReached;
    s := Next(lee, s0, CallTry(i, true));
  }

  lemma Creates(lee: Leeway, s0: System, i: Instance, l: Lock, n: Node) returns (s: System)
    requires Scene(lee, s0, i, Trying, l) && l.threads[MAIN].Creating?
    requires Room(s0.locks, n) && n.id == l.id
    ensures Scene(lee, s, i, Trying, Goto(l, MAIN, Created(n))) && Frame(s0, s, i) && Grown(s0.locks, s.locks, n)
  {
    hide SmoothlyReached;
    s := Steps(lee, s0, i, Trying, Create(i, n, 0));
  }

  lemma Wins(lee: Leeway, s0: System, i: Instance, l: Lock, n: Node) returns (s: System)
    requires Scene(lee, s0, i, Trying, l) && l.threads[MAIN] == Created(n)
    requires n in s0.locks.births && s0.locks.births[n].at == s0.locks.now && IsLowestAt(s0.locks, n, s0.locks.now)
    ensures Scene(lee, s, i, Trying, Goto(l, MAIN, Won(n))) && Frame(s0, s, i) && SameTree(s0.locks, s.locks)
  {
    hide SmoothlyReached;
    s := Steps(lee, s0, i, Trying, ReadLowest(i, s0.locks.now));
  }

  lemma StoresPath(lee: Leeway, s0: System, i: Instance, l: Lock, n: Node) returns (s: System)
    requires Scene(lee, s0, i, Trying, l) && l.threads[MAIN] == Won(n)
    ensures Scene(lee, s, i, Trying, Goto(l.(lockPath := Some(n)), MAIN, Storing(true, false)))
    ensures Frame(s0, s, i) && SameTree(s0.locks, s.locks)
  {
    hide SmoothlyReached;
    s := Steps(lee, s0, i, Trying, StorePath(i));
  }

  lemma StoresFlag(lee: Leeway, s0: System, i: Instance, l: Lock) returns (s: System)
    requires Scene(lee, s0, i, Trying, l) && l.threads[MAIN] == Storing(true, false)
    ensures Scene(lee, s, i, Trying, Goto(l.(acquired := true), MAIN, Stored(true, false)))
    ensures Frame(s0, s, i) && SameTree(s0.locks, s.locks)
  {
    hide SmoothlyReached;
    s := Steps(lee, s0, i, Trying, StoreFlag(i));
  }

  lemma StartsWatcher(lee: Leeway, s0: System, i: Instance, l: Lock, t: Thread) returns (s: System)
    requires Scene(lee, s0, i, Trying, l) && l.threads[MAIN] == Stored(true, false)
    requires l.acquired && t !in l.threads
    ensures Scene(lee, s, i, Trying, Goto(Goto(l, MAIN, Returning(true, false)), t, Watching))
    ensures Frame(s0, s, i) && SameTree(s0.locks, s.locks)
  {
    hide SmoothlyReached;
    s := Steps(lee, s0, i, Trying, ReadFlag(i, t));
  }

  lemma Returns(lee: Leeway, s0: System, i: Instance, l: Lock) returns (s: System)
    requires Scene(lee, s0, i, Trying, l) && l.threads[MAIN] == Returning(true, false) && l.acquired
    ensures Scene(lee, s, i, Trying, Goto(l, MAIN, Returned(TryOutcome(true, false, true))))
    ensures Frame(s0, s, i) && SameTree(s0.locks, s.locks)
  {
    hide SmoothlyReached;
    s := Steps(lee, s0, i, Trying, ReturnFlag(i));
  }

  lemma Enters(lee: Leeway, s0: System, i: Instance, l: Lock) returns (s: System)
    requires Scene(lee, s0, i, Trying, l) && l.threads[MAIN] == Returned(TryOutcome(true, false, true))
    ensures Scene(lee, s, i, Connecting, Goto(l, MAIN, Ready)) && Frame(s0, s, i) && SameTree(s0.locks, s.locks)
  {
    hide SmoothlyReached;
    s := Next(lee, s0, TryReturns(i));
  }

  /** The lock after a Try that got it with node `n`, watched by thread `t`. */
  function Taken(l: Lock, n: Node, t: Thread): Lock {
    l.(lockPath := Some(n), acquired := true, threads := l.threads[MAIN := Ready][t := Watching])
  }

  lemma Plants(lee: Leeway, s0: System, i: Instance, l: Lock, n: Node) returns (s: System)
    requires Scene(lee, s0, i, WantLock, l) && l.threads[MAIN].Ready? && l.lockPath.None?
    requires Room(s0.locks, n) && n.id == l.id
    ensures Scene(lee, s, i, Trying, Goto(l, MAIN, Created(n))) && Frame(s0, s, i) && Grown(s0.locks, s.locks, n)
  {
    hide Scene, Frame, Room, SmoothlyReached, Grown;
    var s1 := Calls(lee, s0, i, l);
    FrameKeepsLoop(s0, s1, i);
    RoomStays(s0.locks, s1.locks, n);
    s := Creates(lee, s1, i, Goto(l, MAIN, Creating), n);
    FramesAddUp(s0, s1, s, i);
    assert Goto(Goto(l, MAIN, Creating), MAIN, Created(n)) == Goto(l, MAIN, Created(n));
    GrowsFromSame(s0.locks, s1.locks, s.locks, n);
  }

  lemma FindsItself(lee: Leeway, s0: System, i: Instance, l: Lock, n: Node) returns (s: System)
    requires Scene(lee, s0, i, WantLock, l) && l.threads[MAIN].Ready? && l.lockPath.None?
    requires Room(s0.locks, n) && n.id == l.id
    ensures Scene(lee, s, i, Trying, Goto(l, MAIN, Won(n))) && Frame(s0, s, i) && Grown(s0.locks, s.locks, n)
  {
    hide Scene, Frame, Room, SmoothlyReached, IsLowestAt, SameTree;
    var s1 := Plants(lee, s0, i, l, n);
    FrameKeepsLoop(s0, s1, i);
    s := Wins(lee, s1, i, Goto(l, MAIN, Created(n)), n);
    FramesAddUp(s0, s1, s, i);
    assert Goto(Goto(l, MAIN, Created(n)), MAIN, Won(n)) == Goto(l, MAIN, Won(n));
    GrownStays(s0.locks, s1.locks, s.locks, n);
  }

  lemma GrowsFromSame(w: World, w0: World, w1: World, n: Node)
    requires SameTree(w, w0) && Grown(w0, w1, n)
    ensures Grown(w, w1, n)
  {
  }

  lemma GrownStays(w: World, w0: World, w1: World, n: Node)
    requires Grown(w, w0, n) && SameTree(w0, w1)
    ensures Grown(w, w1, n)
  {
  }

  lemma SameTreeIsReflexive(w: World)
    ensures SameTree(w, w)
  {
  }

  lemma SameTreesAddUp(w: World, w0: World, w1: World)
    requires SameTree(w, w0) && SameTree(w0, w1)
    ensures SameTree(w, w1)
  {
  }

  lemma FrameKeepsLoop(s0: System, s: System, i: Instance)
    requires Frame(s0, s, i)
    ensures i in s.loops && s0.locks.locks.Keys <= s.locks.locks.Keys
  {
  }

  lemma StoresResult(lee: Leeway, s0: System, i: Instance, l: Lock, n: Node) returns (s: System)
    requires Scene(lee, s0, i, Trying, l) && l.threads[MAIN] == Won(n)
    ensures Scene(lee, s, i, Trying, Goto(l.(lockPath := Some(n), acquired := true), MAIN, Stored(true, false)))
    ensures Frame(s0, s, i) && SameTree(s0.locks, s.locks)
  {
    hide Scene, Frame;
    var s1 := StoresPath(lee, s0, i, l, n);
    FrameKeepsLoop(s0, s1, i);
    var l1 := Goto(l.(lockPath := Some(n)), MAIN, Storing(true, false));
    s := StoresFlag(lee, s1, i, l1);
    FramesAddUp(s0, s1, s, i);
    assert Goto(l1.(acquired := true), MAIN, Stored(true, false))
        == Goto(l.(lockPath := Some(n), acquired := true), MAIN, Stored(true, false));
  }

  lemma ReportsResult(lee: Leeway, s0: System, i: Instance, l: Lock, t: Thread) returns (s: System)
    requires Scene(lee, s0, i, Trying, l) && l.threads[MAIN] == Stored(true, false)
    requires l.acquired && t !in l.threads
    ensures Scene(lee, s, i, Connecting, Goto(Goto(l, MAIN, Ready), t, Watching))
    ensures Frame(s0, s, i) && SameTree(s0.locks, s.locks)
  {
    hide Scene, Frame, SmoothlyReached, SameTree, Live, IsLowestAt;
    SceneHasMain(lee, s0, i, Trying, l);
    var s1 := StartsWatcher(lee, s0, i, l, t);
    FrameKeepsLoop(s0, s1, i);
    var l1 := Goto(Goto(l, MAIN, Returning(true, false)), t, Watching);
    var s2 := Returns(lee, s1, i, l1);
    FrameKeepsLoop(s1, s2, i);
    FramesAddUp(s0, s1, s2, i);
    var l2 := Goto(l1, MAIN, Returned(TryOutcome(true, false, true)));
    s := Enters(lee, s2, i, l2);
    FramesAddUp(s0, s2, s, i);
    assert Goto(l2, MAIN, Ready) == Goto(Goto(l, MAIN, Ready), t, Watching);
    SameTreesAddUp(s0.locks, s1.locks, s2.locks);
    SameTreesAddUp(s0.locks, s2.locks, s.locks);
  }

  lemma SceneHasMain(lee: Leeway, s: System, i: Instance, pc: LoopPc, l: Lock)
    requires Scene(lee, s, i, pc, l)
    ensures MAIN in l.threads
  {
  }

  /** A loop that is about to try the lock gets it and connects. */
  lemma Takes(lee: Leeway, s0: System, i: Instance, l: Lock, n: Node, t: Thread) returns (s: System)
    requires Scene(lee, s0, i, WantLock, l) && l.threads[MAIN].Ready? && l.lockPath.None?
    requires Room(s0.locks, n) && n.id == l.id && t !in l.threads
    ensures Scene(lee, s, i, Connecting, Taken(l, n, t)) && Frame(s0, s, i) && Grown(s0.locks, s.locks, n)
  {
    hide Scene, Frame, Room, SmoothlyReached, Grown, SameTree;
    SceneHasMain(lee, s0, i, WantLock, l);
    var s1 := FindsItself(lee, s0, i, l, n);
    FrameKeepsLoop(s0, s1, i);
    var l1 := Goto(l, MAIN, Won(n));
    var s2 := StoresResult(lee, s1, i, l1, n);
    FrameKeepsLoop(s1, s2, i);
    FramesAddUp(s0, s1, s2, i);
    var l2 := Goto(l1.(lockPath := Some(n), acquired := true), MAIN, Stored(true, false));
    s := ReportsResult(lee, s2, i, l2, t);
    FramesAddUp(s0, s2, s, i);
    assert Goto(Goto(l2, MAIN, Ready), t, Watching) == Taken(l, n, t);
    GrownStays(s0.locks, s1.locks, s2.locks, n);
    GrownStays(s0.locks, s2.locks, s.locks, n);
  }

  // ----- a newcomer -----

  lemma Spawns(lee: Leeway, s0: System, i: Instance, name: string, member: string) returns (s: System)
    requires SmoothlyReached(lee, s0) && i !in s0.loops && i !in s0.locks.locks && i !in s0.free && s0.limit > 0
    ensures SmoothlyReached(lee, s) && Frame(s0, s, i) && SameTree(s0.locks, s.locks)
    ensures s.loops[i] == Loop(i, name, true, false, Head, false, false, false, 0, {}) && i in s.free && s.free[i] == s0.limit
    ensures s.locks.locks[i] == Lock(LockId(s0.prefix, name), member, false, None, None, map[MAIN := Ready], {})
  {
    hide SmoothlyReached, LockId;
    s := Next(lee, s0, StartGateway(i));
    s := Next(lee, s, Spawn(i, i, name, true, false, member));
  }

  lemma LooksForSlot(lee: Leeway, s0: System, i: Instance, name: string, member: string) returns (s: System)
    requires SmoothlyReached(lee, s0) && i !in s0.loops && i !in s0.locks.locks && i !in s0.free && s0.limit > 0
    ensures SmoothlyReached(lee, s) && Frame(s0, s, i) && SameTree(s0.locks, s.locks)
    ensures s.loops[i] == Loop(i, name, true, false, WantSlot, false, false, false, 0, {})
    ensures i in s.free && s.free[i] == s0.limit
    ensures s.locks.locks[i] == Lock(LockId(s0.prefix, name), member, false, None, None, map[MAIN := Ready], {})
  {
    hide SmoothlyReached, LockId, SameTree;
    var s1 := Spawns(lee, s0, i, name, member);
    s := Next(lee, s1, CheckStopped(i));
    assert s.locks == s1.locks;
    SameTreeIsReflexive(s.locks);
    SameTreesAddUp(s0.locks, s1.locks, s.locks);
  }

  lemma GetsSlot(lee: Leeway, s0: System, i: Instance, name: string, member: string) returns (s: System)
    requires SmoothlyReached(lee, s0) && i !in s0.loops && i !in s0.locks.locks && i !in s0.free && s0.limit > 0
    ensures Scene(lee, s, i, WantLock,
                  Lock(LockId(s0.prefix, name), member, false, None, None, map[MAIN := Ready], {}))
    ensures Frame(s0, s, i) && SameTree(s0.locks, s.locks) && s.loops[i].name == name && s.loops[i].gateway == i
  {
    hide SmoothlyReached, LockId, SameTree;
    var s1 := LooksForSlot(lee, s0, i, name, member);
    s := Next(lee, s1, AcquireSlot(i));
    assert s.locks == s1.locks;
    SameTreeIsReflexive(s.locks);
    SameTreesAddUp(s0.locks, s1.locks, s.locks);
  }

  lemma {:induction false} NumberAbove(nodes: set<Node>) returns (k: nat)
    ensures forall n <- nodes :: n.number < k
    decreases |nodes|
  {
    if nodes == {} {
      k := 0;
    } else {
      var n :| n in nodes;
      var rest := NumberAbove(nodes - {n});
      k := if n.number < rest then rest else n.number + 1;
    }
  }

  /** A lock instance that has not been used yet. */
  function NewLock(prefix: string, name: string): Lock {
    Lock(LockId(prefix, name), "", false, None, None, map[MAIN := Ready], {})
  }

  /** No node of the lock of a name is in the tree. */
  ghost predicate NobodyIn(s: System, name: string) {
    forall m <- s.locks.births | m.id == LockId(s.prefix, name) :: !Live(s.locks, m)
  }

  /** Then a new gateway gets the lock and connects, whatever the others are doing. */
  lemma NewcomerConnects(lee: Leeway, s0: System, i: Instance, name: string) returns (s: System, n: Node)
    requires SmoothlyReached(lee, s0) && i !in s0.loops && i !in s0.locks.locks && i !in s0.free && s0.limit > 0
    requires NobodyIn(s0, name)
    ensures Scene(lee, s, i, Connecting, Taken(NewLock(s0.prefix, name), n, 1)) && n.id == LockId(s0.prefix, name)
    ensures s.loops[i].name == name && s.loops[i].gateway == i && Frame(s0, s, i) && Grown(s0.locks, s.locks, n)
  {
    hide SmoothlyReached, LockId, Scene, Frame, IsLowestAt, Room, NobodyIn, Grown;
    n := Place(lee, s0, name);
    var s1 := GetsSlot(lee, s0, i, name, "");
    FrameKeepsLoop(s0, s1, i);
    RoomStays(s0.locks, s1.locks, n);
    s := Takes(lee, s1, i, NewLock(s0.prefix, name), n, 1);
    FramesAddUp(s0, s1, s, i);
    FrameKeepsName(s1, s, i);
    GrowsFromSame(s0.locks, s1.locks, s.locks, n);
  }

  lemma FrameKeepsName(s0: System, s: System, i: Instance)
    requires Frame(s0, s, i) && i in s0.loops
    ensures i in s.loops && s.loops[i].name == s0.loops[i].name && s.loops[i].gateway == s0.loops[i].gateway
  {
  }

  lemma RoomStays(w: World, w': World, n: Node)
    requires SameTree(w, w') && Room(w, n) && w.locks.Keys <= w'.locks.Keys
    ensures Room(w', n)
  {
  }

  lemma Place(lee: Leeway, s: System, name: string) returns (n: Node)
    requires SmoothlyReached(lee, s) && NobodyIn(s, name)
    ensures n.id == LockId(s.prefix, name) && Room(s.locks, n)
  {
    var k := NumberAbove(s.locks.births.Keys);
    n := Node(LockId(s.prefix, name), "", k);
    SmoothInv(lee, s);
  }

  lemma SmoothInv(lee: Leeway, s: System)
    requires SmoothlyReached(lee, s)
    ensures Timely(s.locks) && s.locks.expired == {}
  {
    hide CanMoveAll, MovedAll, SystemInv;
    var moves :| AllSmooth(lee, moves) && CanMoveAll(Initially(s.prefix, s.limit), moves) &&
      MovedAll(Initially(s.prefix, s.limit), moves) == s;
    NothingExpires(lee, Initially(s.prefix, s.limit), moves);
    assert Reached(s);
    ReachedInv(s);
    SystemIsTimely(s);
  }

  lemma SystemIsTimely(s: System)
    requires SystemInv(s)
    ensures Timely(s.locks)
  {
  }
}
