/** How two gateways come to have their flag up, or even to be connected, for one target at once although nothing fails. */
module FlagOverlap {
  import opened Options
  import opened LockProtocol
  import opened LockSafety
  import opened LockTheorems
  import opened ConnectionLoops
  import opened LoopSafety
  import opened LoopTheorems
  import opened FaultFree
  import opened SmoothRuns
  import opened Newcomers

  /** Both loops have the flag up for one name, on different gateways. */
  predicate BothFlags(s: System, i: Instance, j: Instance) {
    && i in s.loops && j in s.loops && i != j && s.loops[i].name == s.loops[j].name
    && s.loops[i].gateway != s.loops[j].gateway && s.loops[i].lockAcquired && s.loops[j].lockAcquired
  }

  predicate BothConnected(s: System, i: Instance, j: Instance) {
    BothFlags(s, i, j) && s.loops[i].pc.Connecting? && s.loops[j].pc.Connecting?
  }

  /** A loop whose flag is up although no node of its lock is in the tree can meet with another one, on any new gateway,
      without moving again; if it is still connected, they are both connected. */
  lemma OverlapArises(lee: Leeway, s0: System, i: Instance, j: Instance) returns (s: System)
    requires SmoothlyReached(lee, s0) && i in s0.loops && s0.loops[i].lockAcquired && NobodyIn(s0, s0.loops[i].name)
    requires s0.limit > 0 && j !in s0.loops && j !in s0.locks.locks && j !in s0.free && s0.loops[i].gateway in s0.free
    ensures SmoothlyReached(lee, s) && BothFlags(s, i, j) && s.loops[i] == s0.loops[i]
    ensures s0.loops[i].pc.Connecting? ==> BothConnected(s, i, j)
  {
    var n;
    hide SmoothlyReached, NobodyIn, Grown, LockId;
    s, n := NewcomerConnects(lee, s0, j, s0.loops[i].name);
  }

  // ----- a loop ends its connection -----

  /** `n` has been removed. */
  ghost predicate Shrunk(w0: World, w: World, n: Node) {
    && w.births == w0.births && w.deaths.Keys == w0.deaths.Keys + {n} && w.expired == w0.expired
  }

  lemma HangsUp(lee: Leeway, s0: System, i: Instance, l: Lock) returns (s: System)
    requires Scene(lee, s0, i, Connecting, l) && l.threads[MAIN].Ready? && l.acquired
    ensures Scene(lee, s, i, Unlocking, Goto(l, MAIN, WantMutex)) && Frame(s0, s, i) && SameTree(s0.locks, s.locks)
  {
    hide SmoothlyReached;
    s := Next(lee, s0, Hangup(i));
    s := Next(lee, s, CallUnlock(i));
  }

  lemma TakesMutex(lee: Leeway, s0: System, i: Instance, pc: LoopPc, l: Lock, t: Thread, n: Node) returns (s: System)
    requires Scene(lee, s0, i, pc, l) && t in l.threads && l.threads[t].WantMutex?
    requires l.mutex.None? && l.lockPath == Some(n)
    ensures Scene(lee, s, i, pc, Goto(l.(mutex := Some(t)), t, Deleting(n)))
    ensures Frame(s0, s, i) && SameTree(s0.locks, s.locks) && s.loops == s0.loops
  {
    hide SmoothlyReached;
    s := Steps(lee, s0, i, pc, TakeMutex(i, t));
  }

  lemma Deletes(lee: Leeway, s0: System, i: Instance, pc: LoopPc, l: Lock, t: Thread, n: Node) returns (s: System)
    requires Scene(lee, s0, i, pc, l) && t in l.threads && l.threads[t] == Deleting(n) && Live(s0.locks, n)
    ensures Scene(lee, s, i, pc, Goto(l, t, ClearPath(n))) && Frame(s0, s, i) && Shrunk(s0.locks, s.locks, n)
    ensures s.loops == s0.loops
  {
    hide SmoothlyReached;
    s := Steps(lee, s0, i, pc, DeleteHeld(i, t, Done));
  }

  lemma ShrinksFromSame(w: World, w0: World, w1: World, n: Node)
    requires SameTree(w, w0) && Shrunk(w0, w1, n)
    ensures Shrunk(w, w1, n)
  {
  }

  lemma SameAfterShrunk(w: World, w0: World, w1: World, n: Node)
    requires Shrunk(w, w0, n) && SameTree(w0, w1)
    ensures Shrunk(w, w1, n)
  {
  }

  lemma SameKeepsLive(w: World, w': World, n: Node)
    requires SameTree(w, w')
    ensures Live(w', n) == Live(w, n)
  {
  }

  /** Thread `t`, which has decided to unlock, deletes the node. */
  lemma Releases(lee: Leeway, s0: System, i: Instance, pc: LoopPc, l: Lock, t: Thread, n: Node) returns (s: System)
    requires Scene(lee, s0, i, pc, l) && t in l.threads && l.threads[t].WantMutex?
    requires l.mutex.None? && l.lockPath == Some(n) && Live(s0.locks, n)
    ensures Scene(lee, s, i, pc, Goto(l.(mutex := Some(t)), t, ClearPath(n)))
    ensures Frame(s0, s, i) && Shrunk(s0.locks, s.locks, n) && s.loops == s0.loops
  {
    hide Scene, Frame, SmoothlyReached, SameTree, Shrunk, Live;
    var s1 := TakesMutex(lee, s0, i, pc, l, t, n);
    FrameKeepsLoop(s0, s1, i);
    SameKeepsLive(s0.locks, s1.locks, n);
    var l1 := Goto(l.(mutex := Some(t)), t, Deleting(n));
    s := Deletes(lee, s1, i, pc, l1, t, n);
    FramesAddUp(s0, s1, s, i);
    ShrinksFromSame(s0.locks, s1.locks, s.locks, n);
    assert Goto(l1, t, ClearPath(n)) == Goto(l.(mutex := Some(t)), t, ClearPath(n));
  }

  /** A new gateway is connected, and everything that the lock's directory has ever seen is its node. */
  lemma FirstConnects(lee: Leeway) returns (s: System, n: Node)
    ensures Scene(lee, s, 0, Connecting, Taken(NewLock("", ""), n, 1)) && n.id == LockId("", "")
    ensures s.locks.births.Keys == {n} && s.locks.deaths == map[] && Live(s.locks, n)
    ensures s.prefix == "" && s.limit == 1 && s.loops.Keys == {0} && s.locks.locks.Keys == {0} && s.free.Keys <= {0}
    ensures s.loops[0].name == ""
  {
    hide SmoothlyReached, Scene, LockId;
    var s0 := Beginning(lee);
    s, n := NewcomerConnects(lee, s0, 0, "");
  }

  lemma NobodyLeft(s0: System, s: System, n: Node, name: string)
    requires Shrunk(s0.locks, s.locks, n)
    requires forall m <- s0.locks.births | m.id == LockId(s.prefix, name) :: m == n || !Live(s0.locks, m)
    ensures NobodyIn(s, name)
  {
  }

  /** Two gateways have the flag for one name up at the same time: the first one has deleted its node, and has not yet
      reset its flag. */
  lemma TwoFlagsAtOnce() returns (s: System)
    ensures SmoothlyReached(Leeway(false, false), s) && CalmlyReached(s) && BothFlags(s, 0, 1)
  {
    var lee := Leeway(false, false);
    hide SmoothlyReached, Scene, LockId, NobodyIn, Shrunk, SameTree, CalmlyReached;
    var s1, n := FirstConnects(lee);
    var l := Taken(NewLock("", ""), n, 1);
    var s2 := HangsUp(lee, s1, 0, l);
    SameKeepsLive(s1.locks, s2.locks, n);
    var s3 := Releases(lee, s2, 0, Unlocking, Goto(l, MAIN, WantMutex), MAIN, n);
    FramesAddUp(s1, s2, s3, 0);
    ShrinksFromSame(s1.locks, s2.locks, s3.locks, n);
    NobodyLeft(s1, s3, n, "");
    SceneIsReached(lee, s3, 0, Unlocking, Goto(Goto(l, MAIN, WantMutex).(mutex := Some(MAIN)), MAIN, ClearPath(n)));
    s := OverlapArises(lee, s3, 0, 1);
    SmoothIsCalm(lee, s);
  }

  lemma SceneIsReached(lee: Leeway, s: System, i: Instance, pc: LoopPc, l: Lock)
    requires Scene(lee, s, i, pc, l)
    ensures SmoothlyReached(lee, s) && LoopAt(s, i, pc) && s.loops[i].gateway in s.free && s.loops[i].useLock
    ensures s.loops[i].lockAcquired == (pc in {Connecting, CheckFlag, Unlocking, LowerFlag})
  {
  }
}
