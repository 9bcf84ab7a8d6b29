/**
 * A watcher's decision to unlock can be stale: the flag that it saw fall belonged to an earlier Try.  Then it deletes the
 * node of a loop that is connected, and although nothing fails two gateways are connected to one target.
 */
module StaleWatchers {
  import opened Options
  import opened LockProtocol
  import opened LockSafety
  import opened LockTheorems
  import opened ConnectionLoops
  import opened FaultFree
  import opened SmoothRuns
  import opened Newcomers
  import opened FlagOverlap

  /** Whenever a watcher that has left its loop finds the flag of a connected loop up, that loop can lose its node and
      another gateway can connect, without any other step of the first loop and without any failure. */
  lemma StaleWatcherBreaks(s0: System, i: Instance, l: Lock, t: Thread, n: Node, j: Instance) returns (s: System)
    requires Scene(Leeway(true, false), s0, i, Connecting, l) && l.acquired && l.lockPath == Some(n) && l.mutex.None?
    requires t != MAIN && t in l.threads && l.threads[t].Leaving? && Live(s0.locks, n)
    requires forall m <- s0.locks.births | m.id == LockId(s0.prefix, s0.loops[i].name) :: m == n || !Live(s0.locks, m)
    requires s0.limit > 0 && j !in s0.loops && j !in s0.locks.locks && j !in s0.free
    ensures SmoothlyReached(Leeway(true, false), s) && BothConnected(s, i, j) && s.loops[i] == s0.loops[i]
  {
    var lee := Leeway(true, false);
    SceneIsReached(lee, s0, i, Connecting, l);
    hide SmoothlyReached, Scene, LockId, NobodyIn, Shrunk, SameTree;
    var s1 := Decides(lee, s0, i, l, t);
    SameKeepsLive(s0.locks, s1.locks, n);
    var s2 := Releases(lee, s1, i, Connecting, Goto(l, t, WantMutex), t, n);
    FramesAddUp(s0, s1, s2, i);
    ShrinksFromSame(s0.locks, s1.locks, s2.locks, n);
    NobodyLeft(s0, s2, n, s0.loops[i].name);
    SceneIsReached(lee, s2, i, Connecting, Goto(Goto(l, t, WantMutex).(mutex := Some(t)), t, ClearPath(n)));
    FrameKeepsFresh(s0, s2, i, j);
    s := OverlapArises(lee, s2, i, j);
  }

  lemma Decides(lee: Leeway, s0: System, i: Instance, l: Lock, t: Thread) returns (s: System)
    requires lee.stale && Scene(lee, s0, i, Connecting, l) && l.acquired && t in l.threads && l.threads[t].Leaving?
    requires t != MAIN
    ensures Scene(lee, s, i, Connecting, Goto(l, t, WantMutex))
    ensures Frame(s0, s, i) && SameTree(s0.locks, s.locks) && s.loops == s0.loops
  {
    hide SmoothlyReached;
    s := Steps(lee, s0, i, Connecting, WatcherDecides(i, t, true));
  }

  lemma FrameKeepsFresh(s0: System, s: System, i: Instance, j: Instance)
    requires Frame(s0, s, i) && i in s0.loops && i in s0.locks.locks && j !in s0.loops && j !in s0.locks.locks && j !in s0.free
    requires s.loops == s0.loops
    ensures j !in s.loops && j !in s.locks.locks && j !in s.free && s.limit == s0.limit && s.prefix == s0.prefix
  {
  }

  // ----- how a watcher gets there -----

  lemma ForgetsPath(lee: Leeway, s0: System, i: Instance, pc: LoopPc, l: Lock, n: Node) returns (s: System)
    requires Scene(lee, s0, i, pc, l) && l.threads[MAIN] == ClearPath(n)
    ensures Scene(lee, s, i, pc, Goto(l.(lockPath := None), MAIN, ClearFlag)) && Frame(s0, s, i)
    ensures SameTree(s0.locks, s.locks)
  {
    hide SmoothlyReached;
    s := Steps(lee, s0, i, pc, ErasePath(i, MAIN));
  }

  lemma LowersFlag(lee: Leeway, s0: System, i: Instance, pc: LoopPc, l: Lock) returns (s: System)
    requires Scene(lee, s0, i, pc, l) && l.threads[MAIN] == ClearFlag
    ensures Scene(lee, s, i, pc, Goto(l.(acquired := false, mutex := None), MAIN, Returned(UnlockOutcome(false))))
    ensures Frame(s0, s, i) && SameTree(s0.locks, s.locks)
  {
    hide SmoothlyReached;
    s := Steps(lee, s0, i, pc, EraseFlag(i, MAIN));
  }

  /** The caller's Unlock forgets the path and lowers the flag. */
  lemma Clears(lee: Leeway, s0: System, i: Instance, pc: LoopPc, l: Lock, n: Node) returns (s: System)
    requires Scene(lee, s0, i, pc, l) && l.threads[MAIN] == ClearPath(n)
    ensures Scene(lee, s, i, pc,
                  Goto(l.(lockPath := None, acquired := false, mutex := None), MAIN, Returned(UnlockOutcome(false))))
    ensures Frame(s0, s, i) && SameTree(s0.locks, s.locks)
  {
    hide Scene, Frame, SmoothlyReached, SameTree;
    var s1 := ForgetsPath(lee, s0, i, pc, l, n);
    FrameKeepsLoop(s0, s1, i);
    var l1 := Goto(l.(lockPath := None), MAIN, ClearFlag);
    s := LowersFlag(lee, s1, i, pc, l1);
    FramesAddUp(s0, s1, s, i);
    SameTreesAddUp(s0.locks, s1.locks, s.locks);
    assert Goto(l1.(acquired := false, mutex := None), MAIN, Returned(UnlockOutcome(false)))
        == Goto(l.(lockPath := None, acquired := false, mutex := None), MAIN, Returned(UnlockOutcome(false)));
  }

  lemma UnlockIsOver(lee: Leeway, s0: System, i: Instance, l: Lock, failed: bool) returns (s: System)
    requires Scene(lee, s0, i, Unlocking, l) && l.threads[MAIN] == Returned(UnlockOutcome(failed))
    ensures Scene(lee, s, i, LowerFlag, Goto(l, MAIN, Ready)) && Frame(s0, s, i) && SameTree(s0.locks, s.locks)
  {
    hide SmoothlyReached;
    s := Next(lee, s0, UnlockReturns(i));
  }

  lemma ResetsFlag(lee: Leeway, s0: System, i: Instance, l: Lock) returns (s: System)
    requires Scene(lee, s0, i, LowerFlag, l)
    ensures Scene(lee, s, i, Head, l) && Frame(s0, s, i) && SameTree(s0.locks, s.locks)
  {
    hide SmoothlyReached;
    s := Next(lee, s0, ResetFlag(i));
  }

  /** The loop resets its flag and is back at its head. */
  lemma ComesBack(lee: Leeway, s0: System, i: Instance, l: Lock, failed: bool) returns (s: System)
    requires Scene(lee, s0, i, Unlocking, l) && l.threads[MAIN] == Returned(UnlockOutcome(failed))
    ensures Scene(lee, s, i, Head, Goto(l, MAIN, Ready)) && Frame(s0, s, i) && SameTree(s0.locks, s.locks)
  {
    hide Scene, Frame, SmoothlyReached, SameTree;
    var s1 := UnlockIsOver(lee, s0, i, l, failed);
    FrameKeepsLoop(s0, s1, i);
    s := ResetsFlag(lee, s1, i, Goto(l, MAIN, Ready));
    FramesAddUp(s0, s1, s, i);
    SameTreesAddUp(s0.locks, s1.locks, s.locks);
  }

  /** Its watcher has seen the flag fall, and the loop is about to try again. */
  lemma TriesAgain(lee: Leeway, s0: System, i: Instance, l: Lock, t: Thread) returns (s: System)
    requires Scene(lee, s0, i, Head, l) && !l.acquired && t in l.threads && l.threads[t].Watching? && t != MAIN
    ensures Scene(lee, s, i, WantLock, Goto(l, t, Leaving)) && Frame(s0, s, i) && SameTree(s0.locks, s.locks)
  {
    hide SmoothlyReached;
    s := Steps(lee, s0, i, Head, WatcherLeaves(i, t, false));
    s := Next(lee, s, CheckStopped(i));
  }

  /** The lock of a loop whose connection is over. */
  function Freed(l: Lock): Lock {
    l.(lockPath := None, acquired := false, mutex := None, threads := l.threads[MAIN := Ready])
  }

  lemma Ends(lee: Leeway, s0: System, i: Instance, l: Lock, n: Node) returns (s: System)
    requires Scene(lee, s0, i, Connecting, l) && l.threads[MAIN].Ready? && l.acquired
    requires l.mutex.None? && l.lockPath == Some(n) && Live(s0.locks, n)
    ensures Scene(lee, s, i, Head, Freed(l)) && Frame(s0, s, i) && Shrunk(s0.locks, s.locks, n)
  {
    hide SmoothlyReached, Scene, Frame, Shrunk, SameTree, Live;
    var s1 := HangsUp(lee, s0, i, l);
    FrameKeepsLoop(s0, s1, i);
    SameKeepsLive(s0.locks, s1.locks, n);
    var s2 := Releases(lee, s1, i, Unlocking, Goto(l, MAIN, WantMutex), MAIN, n);
    FrameKeepsLoop(s1, s2, i);
    FramesAddUp(s0, s1, s2, i);
    ShrinksFromSame(s0.locks, s1.locks, s2.locks, n);
    var l2 := Goto(Goto(l, MAIN, WantMutex).(mutex := Some(MAIN)), MAIN, ClearPath(n));
    s := GivesUp(lee, s2, i, l2, n);
    FramesAddUp(s0, s2, s, i);
    SameAfterShrunk(s0.locks, s2.locks, s.locks, n);
    assert Freed(l2) == Freed(l);
  }

  lemma GivesUp(lee: Leeway, s0: System, i: Instance, l: Lock, n: Node) returns (s: System)
    requires Scene(lee, s0, i, Unlocking, l) && l.threads[MAIN] == ClearPath(n)
    ensures Scene(lee, s, i, Head, Freed(l)) && Frame(s0, s, i) && SameTree(s0.locks, s.locks)
  {
    hide SmoothlyReached, Scene, Frame, SameTree;
    var s1 := Clears(lee, s0, i, Unlocking, l, n);
    FrameKeepsLoop(s0, s1, i);
    var l1 := Goto(l.(lockPath := None, acquired := false, mutex := None), MAIN, Returned(UnlockOutcome(false)));
    s := ComesBack(lee, s1, i, l1, false);
    FramesAddUp(s0, s1, s, i);
    SameTreesAddUp(s0.locks, s1.locks, s.locks);
    assert Goto(l1, MAIN, Ready) == Freed(l);
  }

  /** After its first connection the loop is about to try again, and its first watcher has yet to decide. */
  lemma WantsAgain(lee: Leeway) returns (s: System, l: Lock, first: Node)
    ensures Scene(lee, s, 0, WantLock, l) && s.loops[0].name == ""
    ensures l == Lock(LockId("", ""), "", false, None, None, map[MAIN := Ready, 1 := Leaving], {})
    ensures s.locks.births.Keys == {first} && first in s.locks.deaths && NobodyIn(s, "")
    ensures s.prefix == "" && s.limit == 1 && s.loops.Keys == {0} && s.locks.locks.Keys == {0} && s.free.Keys <= {0}
  {
    var s1;
    hide SmoothlyReached, Scene, LockId, NobodyIn, SameTree;
    s1, first := FirstConnects(lee);
    var l1 := Taken(NewLock("", ""), first, 1);
    var s2 := Ends(lee, s1, 0, l1, first);
    s := TriesAgain(lee, s2, 0, Freed(l1), 1);
    FramesAddUp(s1, s2, s, 0);
    SameAfterShrunk(s1.locks, s2.locks, s.locks, first);
    l := Goto(Freed(l1), 1, Leaving);
    NobodyLeft(s1, s, first, "");
  }

  lemma ConnectsAgain(lee: Leeway) returns (s: System, l: Lock, first: Node, n: Node)
    ensures Scene(lee, s, 0, Connecting, Taken(l, n, 2)) && s.loops[0].name == ""
    ensures l.threads == map[MAIN := Ready, 1 := Leaving] && l.mutex.None? && Live(s.locks, n)
    ensures s.locks.births.Keys == {first, n} && first in s.locks.deaths
    ensures s.prefix == "" && s.limit == 1 && s.loops.Keys == {0} && s.locks.locks.Keys == {0} && s.free.Keys <= {0}
  {
    var s1;
    hide SmoothlyReached, Scene, LockId, NobodyIn, Room, IsLowestAt;
    s1, l, first := WantsAgain(lee);
    SceneIsReached(lee, s1, 0, WantLock, l);
    n := Place(lee, s1, "");
    s := Takes(lee, s1, 0, l, n, 2);
  }

  /** Two gateways are connected for one name at the same time, with both flags up, in a run in which nothing fails. */
  lemma TwoConnectedAtOnce() returns (s: System)
    ensures SmoothlyReached(Leeway(true, false), s) && BothConnected(s, 0, 1)
  {
    hide SmoothlyReached, Scene, LockId;
    var s1, l, first, n := ConnectsAgain(Leeway(true, false));
    s := StaleWatcherBreaks(s1, 0, Taken(l, n, 2), 1, n, 1);
  }

  // ----- a loop that has ended with the lock -----

  lemma IsRefused(lee: Leeway, s0: System, i: Instance, l: Lock, n: Node) returns (s: System)
    requires lee.refusals && Scene(lee, s0, i, Unlocking, l) && l.threads[MAIN] == Deleting(n)
    ensures Scene(lee, s, i, Unlocking, Goto(l.(mutex := None), MAIN, Returned(UnlockOutcome(true))))
    ensures Frame(s0, s, i) && SameTree(s0.locks, s.locks)
  {
    hide SmoothlyReached;
    s := Steps(lee, s0, i, Unlocking, DeleteHeld(i, MAIN, Refused));
  }

  /** The loop is stopped and ends. */
  lemma Leaves(lee: Leeway, s0: System, i: Instance, l: Lock) returns (s: System)
    requires Scene(lee, s0, i, Head, l)
    ensures SmoothlyReached(lee, s) && LoopAt(s, i, Gone) && s.locks == s0.locks
    ensures i in s0.loops && s.loops[i].useLock
  {
    hide SmoothlyReached;
    s := Next(lee, s0, Stop(i));
    s := Next(lee, s, CheckStopped(i));
    s := Next(lee, s, Leave(i));
  }

  /** After one refused Delete a loop can have ended and still hold its lock. */
  lemma EndedButHolds() returns (s: System)
    ensures CalmlyReached(s) && LoopAt(s, 0, Gone) && s.loops[0].useLock && Holds(s.locks, 0)
  {
    var lee := Leeway(false, true);
    hide SmoothlyReached, Scene, LockId, SameTree, Live;
    var s1, n := FirstConnects(lee);
    var l := Taken(NewLock("", ""), n, 1);
    var s2 := HangsUp(lee, s1, 0, l);
    var l2 := Goto(l, MAIN, WantMutex);
    var s3 := TakesMutex(lee, s2, 0, Unlocking, l2, MAIN, n);
    var l3 := Goto(l2.(mutex := Some(MAIN)), MAIN, Deleting(n));
    var s4 := IsRefused(lee, s3, 0, l3, n);
    var l4 := Goto(l3.(mutex := None), MAIN, Returned(UnlockOutcome(true)));
    var s5 := ComesBack(lee, s4, 0, l4, true);
    SameTreesAddUp(s1.locks, s2.locks, s3.locks);
    SameTreesAddUp(s1.locks, s3.locks, s4.locks);
    SameTreesAddUp(s1.locks, s4.locks, s5.locks);
    SameKeepsLive(s1.locks, s5.locks, n);
    SceneHolds(lee, s5, 0, Head, Goto(l4, MAIN, Ready), n);
    s := Leaves(lee, s5, 0, Goto(l4, MAIN, Ready));
    SmoothIsCalm(lee, s);
  }

  lemma SceneHolds(lee: Leeway, s: System, i: Instance, pc: LoopPc, l: Lock, n: Node)
    requires Scene(lee, s, i, pc, l) && l.lockPath == Some(n) && Live(s.locks, n)
    ensures Holds(s.locks, i)
  {
  }
}
