/**
 * Runs without faults: no session expires, no watcher sees a disconnect, and no Delete is done but reported as failed.
 * In such runs a watcher can still delete a node that is in use: it leaves its loop because the flag is down after an
 * Unlock, and then finds the flag up again after the next Try.  Without such a stale decision connections exclude each
 * other.
 */
module FaultFree {
  import opened Options
  import opened LockProtocol
  import opened LockSafety
  import opened LockTheorems
  import opened LockFlags
  import opened LockRefinement
  import opened ConnectionLoops
  import opened LoopSafety
  import opened LoopTheorems

  predicate Faulty(step: Step) {
    step.Expire? || (step.WatcherLeaves? && step.disconnected) || (step.DeleteHeld? && step.reply.Lost?)
  }

  /** In a run without faults a watcher has left its loop because the flag was down. */
  predicate Stale(step: Step) {
    step.WatcherDecides? && step.flag
  }

  predicate Benign(step: Step) {
    !Faulty(step) && !Stale(step)
  }

  /** What an instance has stored or has in hand is in the tree, unless its own Unlock has just removed it, and no
      watcher unlocks. */
  ghost predicate Sound(w: World, l: Lock)
    requires MAIN in l.threads
  {
    && (l.lockPath.Some? && !l.threads[MAIN].ClearPath? ==> Live(w, l.lockPath.value))
    && (InHand(l.threads[MAIN]).Some? ==> Live(w, InHand(l.threads[MAIN]).value))
    && (Succeeded(l.threads[MAIN]) ==> l.lockPath.Some?)
    && (forall t <- l.threads :: t != MAIN ==> IsWatcher(l.threads[t]))
  }

  /** Try is about to return true, or has done so. */
  predicate Succeeded(pc: Pc) {
    (Answering(pc) && pc.ok) || (pc.Returned? && pc.outcome.TryOutcome? && pc.outcome.ok)
  }

  lemma SoundCaller(w: World, step: Step)
    requires Timely(w) && Enabled(w, step) && !step.Expire? && !ByAnyThread(step) && Benign(step)
    requires !step.Join? ==>
      && ThreadsInv(w.locks[step.i]) && MutexInv(w.locks[step.i]) && FlagInv(w.locks[step.i])
      && OwnsInv(w, step.i, w.locks[step.i]) && Sound(w, w.locks[step.i])
    ensures MAIN in LockAfter(w, step).threads && Sound(TreeAfter(w, step), LockAfter(w, step))
  {
    hide IsLowestAt;
  }

  lemma SoundThread(w: World, step: Step)
    requires Timely(w) && Enabled(w, step) && ByAnyThread(step) && Benign(step)
    requires ThreadsInv(w.locks[step.i]) && MutexInv(w.locks[step.i])
    requires OwnsInv(w, step.i, w.locks[step.i]) && Sound(w, w.locks[step.i])
    ensures MAIN in LockAfter(w, step).threads && Sound(TreeAfter(w, step), LockAfter(w, step))
  {
    hide IsLowestAt, FreshNumber, Plant, Expiring;
    if step.WatcherLeaves? || step.WatcherDecides? {
      hide ThreadsInv, MutexInv, OwnsInv, Timely, CanReply, Carry;
      assert TreeAfter(w, step) == w;
    } else {
      hide LockAfter, TreeAfter, OwnsInv, MutexInv, Timely, CanReply, Carry, Live;
      SoundUnlock(w, step);
    }
  }

  lemma SoundUnlock(w: World, step: Step)
    requires Timely(w) && Enabled(w, step) && Benign(step)
    requires step.TakeMutex? || step.DeleteHeld? || step.ErasePath? || step.EraseFlag?
    requires step.t == MAIN && ThreadsInv(w.locks[step.i]) && MutexInv(w.locks[step.i])
    requires OwnsInv(w, step.i, w.locks[step.i]) && Sound(w, w.locks[step.i])
    ensures MAIN in LockAfter(w, step).threads && Sound(TreeAfter(w, step), LockAfter(w, step))
  {
    hide IsLowestAt, FreshNumber, Plant, Expiring;
  }

  lemma SoundActor(w: World, step: Step)
    requires Timely(w) && Enabled(w, step) && Benign(step)
    requires !step.Join? ==>
      && ThreadsInv(w.locks[step.i]) && MutexInv(w.locks[step.i]) && FlagInv(w.locks[step.i])
      && OwnsInv(w, step.i, w.locks[step.i]) && Sound(w, w.locks[step.i])
    ensures MAIN in LockAfter(w, step).threads && Sound(TreeAfter(w, step), LockAfter(w, step))
  {
    hide LockAfter, TreeAfter, Sound, ThreadsInv, MutexInv, OwnsInv, FlagInv, Timely;
    if ByAnyThread(step) { SoundThread(w, step); } else { SoundCaller(w, step); }
  }

  lemma SoundOther(w: World, step: Step, i: Instance)
    requires Enabled(w, step) && Benign(step) && !Actor(step, i)
    requires i in w.locks && ThreadsInv(w.locks[i]) && OwnsInv(w, i, w.locks[i]) && Sound(w, w.locks[i])
    requires step.DropLosing? ==> Own(w, step.i, w.locks[step.i], PcOf(w, step.i, MAIN).node)
    requires step.DeleteHeld? ==> Own(w, step.i, w.locks[step.i], PcOf(w, step.i, step.t).node)
    ensures Sound(TreeAfter(w, step), w.locks[i])
  {
  }

  lemma TreeDecidesSound(w: World, w': World, l: Lock)
    requires w'.births == w.births && w'.deaths == w.deaths
    ensures MAIN in l.threads ==> Sound(w', l) == Sound(w, l)
  {
  }

  lemma SoundStep(w: World, step: Step, i: Instance)
    requires Inv(w) && Enabled(w, step) && Benign(step) && i in Apply(w, step).locks
    requires i in w.locks ==> MAIN in w.locks[i].threads && Sound(w, w.locks[i])
    ensures MAIN in Apply(w, step).locks[i].threads && Sound(Apply(w, step), Apply(w, step).locks[i])
  {
    hide *;
    WasThere(w, step, i);
    LocksAfterStep(w, step);
    LockOrTree(w, step, i);
    if i in w.locks {
      InvAt(w, i);
    }
    if !step.Expire? && step.i == i {
      InvHasTree(w);
      SoundActor(w, step);
    } else {
      DeletesOwnNode(w, step);
      NotActor(step, i);
      SoundOther(w, step, i);
    }
  }

  lemma InvHasTree(w: World)
    requires Inv(w)
    ensures Timely(w)
  {
  }

  lemma LockOrTree(w: World, step: Step, i: Instance)
    requires Enabled(w, step) && i in Apply(w, step).locks
    ensures MAIN in Apply(w, step).locks[i].threads ==>
      Sound(Apply(w, step), Apply(w, step).locks[i]) == Sound(TreeAfter(w, step), Apply(w, step).locks[i])
  {
    hide LockAfter, Enabled, TreeAfter, Sound;
    TreeDecidesSound(TreeAfter(w, step), Apply(w, step), Apply(w, step).locks[i]);
  }

  ghost predicate AllSound(w: World) {
    forall i <- w.locks :: MAIN in w.locks[i].threads && Sound(w, w.locks[i])
  }

  /** No watcher has the mutex, so flag and path agree. */
  lemma SoundIsApart(w: World)
    requires Inv(w) && AllSound(w)
    ensures AllApart(w)
  {
    forall i <- w.locks
      ensures Apart(w.locks[i])
    {
      assert LockInv(w, i, w.locks[i]) && Sound(w, w.locks[i]);
    }
  }

  lemma StepKeepsSound(w: World, step: Step)
    requires Inv(w) && Enabled(w, step) && Benign(step) && AllSound(w) && AllAgree(w)
    ensures AllSound(Apply(w, step)) && AllAgree(Apply(w, step))
  {
    forall i <- Apply(w, step).locks
      ensures MAIN in Apply(w, step).locks[i].threads && Sound(Apply(w, step), Apply(w, step).locks[i])
    {
      hide Inv, Apply, Enabled, Sound;
      WasThere(w, step, i);
      SoundStep(w, step, i);
    }
    hide Inv, Apply, Enabled, AllApart, AllAgree, Sound;
    StepKeepsInv(w, step);
    SoundIsApart(w);
    SoundIsApart(Apply(w, step));
    StepAgrees(w, step);
  }

  // ----- runs of the connection loops -----

  predicate Calm(moves: seq<Move>) {
    forall m <- moves :: m.Remote? ==> Benign(m.step)
  }

  /** The caller's Unlock was called with a path, and fails exactly if it keeps it. */
  predicate Unlocks(l: Lock)
    requires MAIN in l.threads
  {
    match l.threads[MAIN]
    case WantMutex => l.lockPath.Some?
    case ClearFlag => l.lockPath.None?
    case Returned(UnlockOutcome(failed)) => failed == l.lockPath.Some?
    case _ => true
  }

  /** A loop that is connected, or has not yet called Unlock, has a node. */
  ghost predicate Backed(s: System, i: Instance)
    requires i in s.loops
  {
    s.loops[i].useLock ==>
      && i in s.locks.locks && MAIN in s.locks.locks[i].threads
      && (s.loops[i].pc in {Connecting, CheckFlag} ==> s.locks.locks[i].lockPath.Some?)
      && (s.loops[i].pc.Unlocking? ==> Unlocks(s.locks.locks[i]))
  }

  ghost predicate AllBacked(s: System) {
    AllSound(s.locks) && AllAgree(s.locks) && forall i <- s.loops :: Backed(s, i)
  }

  /** While the caller is between calls and no watcher unlocks, the path stays as it is. */
  lemma PathStays(w: World, step: Step, i: Instance)
    requires Enabled(w, step) && At(w, i, MAIN) && PcOf(w, i, MAIN).Ready? && Sound(w, w.locks[i])
    ensures i in Apply(w, step).locks && Apply(w, step).locks[i].lockPath == w.locks[i].lockPath
  {
    if Actor(step, i) {
      PathAfter(w, step);
    }
  }

  /** A Try that is over and has returned true leaves a path, and picking up its result does not change that. */
  lemma PathIsThere(w: World, i: Instance)
    requires Enabled(w, Collect(i)) && Sound(w, w.locks[i]) && Succeeded(PcOf(w, i, MAIN))
    ensures i in Apply(w, Collect(i)).locks && Apply(w, Collect(i)).locks[i].lockPath.Some?
  {
  }

  /** Unlock is called with the flag up, and so with a path. */
  lemma UnlockStartsWithPath(w: World, i: Instance)
    requires Enabled(w, UnlockStart(i)) && w.locks[i].acquired && Agrees(w.locks[i]) && Sound(w, w.locks[i])
    requires MutexInv(w.locks[i])
    ensures i in Apply(w, UnlockStart(i)).locks && MAIN in Apply(w, UnlockStart(i)).locks[i].threads
    ensures Unlocks(Apply(w, UnlockStart(i)).locks[i])
  {
  }

  lemma StepKeepsUnlocks(w: World, step: Step, i: Instance)
    requires Enabled(w, step) && At(w, i, MAIN) && Sound(w, w.locks[i]) && Unlocks(w.locks[i]) && Benign(step)
    requires MutexInv(w.locks[i]) && InTune(Unlocking, PcOf(w, i, MAIN))
    requires Actor(step, i) ==> !step.Join? && !step.TryStart? && !step.UnlockStart? && !step.Collect?
    ensures i in Apply(w, step).locks && MAIN in Apply(w, step).locks[i].threads && Unlocks(Apply(w, step).locks[i])
  {
    LocksAfterStep(w, step);
    hide Apply, FreshNumber, IsLowestAt, Live;
  }

  /** Steps of the lock protocol by others, and moves of other loops, leave a loop backed. */
  lemma RemoteKeepsBacked(s: System, move: Move, i: Instance)
    requires CanMove(s, move) && (move.Remote? ==> Benign(move.step)) && i in s.loops && s.loops[i].useLock
    requires move.StartGateway? || move.Remote? || move.i != i
    requires LoopInv(s, i) && Backed(s, i) && Sound(s.locks, s.locks.locks[i]) && MutexInv(s.locks.locks[i])
    ensures Backed(Moved(s, move), i)
  {
    MoverIsOther(s, move, i);
    hide Sound, Apply, Enabled, Disciplined, LoopEnabled, Unlocks;
    if LockStep(s, move).Some? {
      var step := LockStep(s, move).value;
      MoveStepIsBenign(s, move);
      MainStays(s.locks, step, i);
      if s.loops[i].pc in {Connecting, CheckFlag} {
        PathStays(s.locks, step, i);
      } else if s.loops[i].pc.Unlocking? {
        StepKeepsUnlocks(s.locks, step, i);
      }
    }
  }

  lemma MainStays(w: World, step: Step, i: Instance)
    requires Enabled(w, step) && At(w, i, MAIN)
    ensures At(Apply(w, step), i, MAIN)
  {
    LocksAfterStep(w, step);
    hide Apply, FreshNumber, IsLowestAt, Live;
  }

  lemma MoverIsOther(s: System, move: Move, i: Instance)
    requires CanMove(s, move) && i in s.loops && LoopInv(s, i)
    requires move.StartGateway? || move.Remote? || move.i != i
    ensures LoopsAfter(s, move)[i] == s.loops[i]
    ensures LockStep(s, move).Some? && Actor(LockStep(s, move).value, i) ==>
      var step := LockStep(s, move).value; !step.Join? && !step.TryStart? && !step.UnlockStart? && !step.Collect?
  {
    hide Enabled, Apply, Disciplined, InTune;
  }

  lemma OwnMoveBacked(s: System, move: Move, i: Instance)
    requires CanMove(s, move) && !move.StartGateway? && !move.Remote? && move.i == i && LoopInv(Moved(s, move), i)
    requires i in s.loops ==> LoopInv(s, i) && Backed(s, i)
    requires i in s.locks.locks ==>
      MAIN in s.locks.locks[i].threads && Sound(s.locks, s.locks.locks[i])
      && Agrees(s.locks.locks[i]) && MutexInv(s.locks.locks[i])
    ensures Backed(Moved(s, move), i)
  {
    hide Sound, Apply, Enabled, Agrees;
    if Moved(s, move).loops[i].useLock && LockStep(s, move).Some? {
      match move {
        case TryReturns(_) => PathIsThereIf(s.locks, i);
        case CallUnlock(_) => UnlockStartsWithPath(s.locks, i);
        case _ =>
      }
    }
  }

  lemma PathIsThereIf(w: World, i: Instance)
    requires Enabled(w, Collect(i)) && Sound(w, w.locks[i])
    ensures Succeeded(PcOf(w, i, MAIN)) ==> i in Apply(w, Collect(i)).locks && Apply(w, Collect(i)).locks[i].lockPath.Some?
  {
    if Succeeded(PcOf(w, i, MAIN)) {
      PathIsThere(w, i);
    }
  }

  lemma MoveBacked(s: System, move: Move, i: Instance)
    requires SystemInv(s) && AllBacked(s) && CanMove(s, move) && (move.Remote? ==> Benign(move.step))
    requires SystemInv(Moved(s, move)) && i in Moved(s, move).loops
    ensures Backed(Moved(s, move), i)
  {
    assert LoopInv(Moved(s, move), i) && (i in s.loops ==> LoopInv(s, i) && Backed(s, i));
    assert i in s.locks.locks ==>
      MAIN in s.locks.locks[i].threads && Sound(s.locks, s.locks.locks[i]) && Agrees(s.locks.locks[i]);
    if i in s.locks.locks {
      InvAt(s.locks, i);
    }
    hide SystemInv, AllBacked, AllSound, AllAgree, CanMove, Sound, Agrees, MutexInv, LoopAfter;
    if !move.StartGateway? && !move.Remote? && move.i == i {
      OwnMoveBacked(s, move, i);
    } else if s.loops[i].useLock {
      RemoteKeepsBacked(s, move, i);
    }
  }

  lemma MoveKeepsBacked(s: System, move: Move)
    requires SystemInv(s) && AllBacked(s) && CanMove(s, move) && (move.Remote? ==> Benign(move.step))
    ensures SystemInv(Moved(s, move)) && AllBacked(Moved(s, move))
  {
    MoveKeepsInv(s, move);
    var s' := Moved(s, move);
    forall i <- s'.loops
      ensures Backed(s', i)
    {
      MoveBacked(s, move, i);
    }
    hide SystemInv, LoopEnabled, Backed, AllSound, AllAgree, Apply, Enabled;
    if LockStep(s, move).Some? {
      MoveStepIsBenign(s, move);
      assert Inv(s.locks) by { SystemHasInv(s); }
      StepKeepsSound(s.locks, LockStep(s, move).value);
    }
  }

  lemma SystemHasInv(s: System)
    requires SystemInv(s)
    ensures Inv(s.locks)
  {
  }

  lemma MoveStepIsBenign(s: System, move: Move)
    requires CanMove(s, move) && LockStep(s, move).Some? && (move.Remote? ==> Benign(move.step))
    ensures Benign(LockStep(s, move).value) && Enabled(s.locks, LockStep(s, move).value)
  {
    hide Enabled, LoopEnabled;
  }

  lemma {:induction false} MovesBacked(s: System, moves: seq<Move>)
    requires SystemInv(s) && AllBacked(s) && CanMoveAll(s, moves) && Calm(moves)
    ensures SystemInv(MovedAll(s, moves)) && AllBacked(MovedAll(s, moves))
    decreases |moves|
  {
    hide SystemInv, AllBacked, CanMove, Moved;
    if moves != [] {
      MoveKeepsBacked(s, moves[0]);
      MovesBacked(Moved(s, moves[0]), moves[1..]);
    }
  }

  /** A state reached by a run without faults and without stale decisions of watchers. */
  ghost predicate CalmlyReached(s: System) {
    exists moves :: Calm(moves) && CanMoveAll(Initially(s.prefix, s.limit), moves) &&
      MovedAll(Initially(s.prefix, s.limit), moves) == s
  }

  lemma CalmlyReachedInv(s: System)
    requires CalmlyReached(s)
    ensures SystemInv(s) && AllBacked(s)
  {
    var moves :| Calm(moves) && CanMoveAll(Initially(s.prefix, s.limit), moves) &&
      MovedAll(Initially(s.prefix, s.limit), moves) == s;
    MovesBacked(Initially(s.prefix, s.limit), moves);
  }

  /** In such a state a loop inside doConnect holds its lock. */
  lemma ConnectedHolds(s: System, i: Instance)
    requires CalmlyReached(s) && i in s.loops && s.loops[i].useLock && s.loops[i].pc in {Connecting, CheckFlag}
    ensures LoopInv(s, i) && Holds(s.locks, i)
  {
    CalmlyReachedInv(s);
    assert LoopInv(s, i) && Backed(s, i) && Sound(s.locks, s.locks.locks[i]);
  }

  /** So no target is connected to twice. */
  lemma ConnectedOnce(s: System, i: Instance, j: Instance)
    requires CalmlyReached(s) && LoopAt(s, i, Connecting) && LoopAt(s, j, Connecting)
    requires s.loops[i].useLock && s.loops[j].useLock && s.loops[i].name == s.loops[j].name
    ensures i == j
  {
    ConnectedHolds(s, i);
    ConnectedHolds(s, j);
    CalmlyReachedInv(s);
    HoldersAreUnique(s.locks);
  }

  /** A loop that has the flag up and does not hold its lock is between its Unlock and the reset of the flag. */
  lemma UnbackedFlag(s: System, i: Instance)
    requires CalmlyReached(s) && i in s.loops && s.loops[i].lockAcquired && !Holds(s.locks, i)
    ensures s.loops[i].pc in {Unlocking, LowerFlag}
  {
    CalmlyReachedInv(s);
    assert LoopInv(s, i);
    hide SystemInv, AllBacked;
    if s.loops[i].pc in {Connecting, CheckFlag} {
      ConnectedHolds(s, i);
      assert false;
    }
  }

  /** Two flags for one name are up at once only while one of the loops has lost its node to its own Unlock and has not
      reset its flag yet. */
  lemma FlagsExclude(s: System, i: Instance, j: Instance)
    requires CalmlyReached(s) && i in s.loops && j in s.loops && i != j && s.loops[i].name == s.loops[j].name
    requires s.loops[i].lockAcquired && s.loops[j].lockAcquired
    ensures exists k :: (k == i || k == j) && !Holds(s.locks, k) && s.loops[k].pc in {Unlocking, LowerFlag}
  {
    CalmlyReachedInv(s);
    HoldersAreUnique(s.locks);
    assert LoopInv(s, i) && LoopInv(s, j);
    hide SystemInv, AllBacked, CalmlyReached;
    if Holds(s.locks, i) {
      UnbackedFlag(s, j);
    } else {
      UnbackedFlag(s, i);
    }
  }

  lemma CalmIsReached(s: System)
    requires CalmlyReached(s)
    ensures Reached(s)
  {
    var moves :| Calm(moves) && CanMoveAll(Initially(s.prefix, s.limit), moves) &&
      MovedAll(Initially(s.prefix, s.limit), moves) == s;
  }

  /** If only connections of one locked name report a target, two loops pass the test of Forwardable for it at once only
      while one of them has lost its node to its own Unlock and has not reset its flag yet. */
  lemma ExportersOverlapOnly(s: System, target: string, name: string, i: Instance, j: Instance)
    requires CalmlyReached(s) && ReportedOnlyBy(s, target, name) && i != j
    requires ForwardableBy(s, target, i) && ForwardableBy(s, target, j)
    ensures exists k :: (k == i || k == j) && !Holds(s.locks, k) && s.loops[k].pc in {Unlocking, LowerFlag}
  {
    CalmIsReached(s);
    hide CalmlyReached, Reached;
    ForwardableIsReported(s, target, name, i);
    ForwardableIsReported(s, target, name, j);
    PassesOnlyConnected(s, target, i);
    PassesOnlyConnected(s, target, j);
    FlagsExclude(s, i, j);
  }

  lemma ForwardableIsReported(s: System, target: string, name: string, i: Instance)
    requires ReportedOnlyBy(s, target, name) && ForwardableBy(s, target, i)
    ensures s.loops[i].useLock && s.loops[i].name == name
  {
  }

  /** A loop whose Unlock is over still holds its lock exactly if the Unlock failed. */
  lemma UnlockedUnlessFailed(s: System, i: Instance)
    requires CalmlyReached(s) && LoopAt(s, i, Unlocking) && HasReturned(s, i)
    ensures PcOf(s.locks, i, MAIN).outcome.UnlockOutcome?
    ensures Holds(s.locks, i) <==> PcOf(s.locks, i, MAIN).outcome.failed
  {
    CalmlyReachedInv(s);
    assert LoopInv(s, i) && Backed(s, i) && Sound(s.locks, s.locks.locks[i]);
  }

  /** If a loop is connected without holding its lock, though nothing has failed, some watcher's decision was stale. */
  lemma UnbackedNeedsStale(s: System, moves: seq<Move>, i: Instance)
    requires CanMoveAll(Initially(s.prefix, s.limit), moves) && MovedAll(Initially(s.prefix, s.limit), moves) == s
    requires forall m <- moves :: m.Remote? ==> !Faulty(m.step)
    requires LoopAt(s, i, Connecting) && s.loops[i].useLock && !Holds(s.locks, i)
    ensures exists m <- moves :: m.Remote? && Stale(m.step)
  {
    if !exists m <- moves :: m.Remote? && Stale(m.step) {
      assert Calm(moves) && CalmlyReached(s);
      ConnectedHolds(s, i);
      assert false;
    }
  }

  /** A loop that has ended still holds its lock exactly if the lock's own flag is still up. */
  lemma EndedHoldsIff(s: System, i: Instance)
    requires CalmlyReached(s) && LoopAt(s, i, Gone) && s.loops[i].useLock
    ensures i in s.locks.locks && (Holds(s.locks, i) <==> s.locks.locks[i].acquired)
  {
    CalmlyReachedInv(s);
    assert LoopInv(s, i) && Sound(s.locks, s.locks.locks[i]) && Agrees(s.locks.locks[i]);
    InvAt(s.locks, i);
  }
}
