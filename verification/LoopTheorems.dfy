/** Slots, connects and exports over whole runs of a cluster of gateways. */
module LoopTheorems {
  import opened Options
  import opened LockProtocol
  import opened LockSafety
  import opened LockTheorems
  import opened LockRefinement
  import opened ConnectionLoops
  import opened LoopSafety
  import opened ConnectionStates

  lemma {:induction false} MovesKeepInv(s: System, moves: seq<Move>)
    requires SystemInv(s) && CanMoveAll(s, moves)
    ensures SystemInv(MovedAll(s, moves))
    ensures MovedAll(s, moves).prefix == s.prefix && MovedAll(s, moves).limit == s.limit
    decreases |moves|
  {
    if moves != [] {
      MoveKeepsInv(s, moves[0]);
      MovesKeepInv(Moved(s, moves[0]), moves[1..]);
    }
  }

  ghost predicate Reached(s: System) {
    exists moves :: CanMoveAll(Initially(s.prefix, s.limit), moves) && MovedAll(Initially(s.prefix, s.limit), moves) == s
  }

  lemma ReachedInv(s: System)
    requires Reached(s)
    ensures SystemInv(s)
  {
    var moves :| CanMoveAll(Initially(s.prefix, s.limit), moves) && MovedAll(Initially(s.prefix, s.limit), moves) == s;
    MovesKeepInv(Initially(s.prefix, s.limit), moves);
  }

  // ----- slots and discipline -----

  /** The loops of gateway `g` that are inside doConnect. */
  function ConnectingAt(s: System, g: Gateway): set<Instance> {
    set i <- s.loops | s.loops[i].gateway == g && s.loops[i].pc.Connecting?
  }

  lemma SubsetIsNoLarger<T>(a: set<T>, b: set<T>)
    requires a <= b
    ensures |a| <= |b|
  {
    assert b == a + (b - a);
  }

  /** No slot is lost or made up, so a gateway never has more than TargetLimit connections. */
  lemma SlotsAreConserved(s: System, g: Gateway)
    requires Reached(s) && g in s.free
    ensures s.free[g] + |SlotHolders(s, g)| == s.limit
    ensures s.free[g] + |set i <- s.loops | s.loops[i].gateway == g && s.loops[i].slot| == s.limit
    ensures |set i <- s.loops | s.loops[i].gateway == g && s.loops[i].pc.Connecting?| <= s.limit
  {
    ReachedInv(s);
    assert Conserved(s, g);
    assert forall i <- s.loops :: LoopInv(s, i);
    SubsetIsNoLarger(ConnectingAt(s, g), SlotHolders(s, g));
    assert SlotHolders(s, g) == set i <- s.loops | s.loops[i].gateway == g && s.loops[i].slot;
    assert ConnectingAt(s, g) == set i <- s.loops | s.loops[i].gateway == g && s.loops[i].pc.Connecting?;
  }

  /** doConnect is entered with a slot and, if the target is locked, only on a Try that returned true;
      a stopped loop enters it at most once more; no loop keeps a slot or the flag after its end. */
  lemma ConnectIsEarned(s: System, move: Move, i: Instance)
    requires Reached(s) && CanMove(s, move) && LoopAt(Moved(s, move), i, Connecting) && !LoopAt(s, i, Connecting)
    ensures i in s.loops && s.loops[i].slot
    ensures if s.loops[i].useLock
            then move == TryReturns(i) && PcOf(s.locks, i, MAIN).outcome.ok
            else move == ConnectUnlocked(i)
    ensures s.loops[i].stopped ==> s.loops[i].late == 0
  {
    ReachedInv(s);
    if i in s.loops {
      assert LoopInv(s, i);
    }
  }

  lemma EndedLoopsHaveNoSlot(s: System, i: Instance)
    requires Reached(s) && i in s.loops
    ensures s.loops[i].pc in {Head, Gone} ==> !s.loops[i].lockAcquired
    ensures s.loops[i].pc.Gone? ==> !s.loops[i].slot
    ensures s.loops[i].late <= if s.loops[i].stopped then 1 else 0
  {
    ReachedInv(s);
    assert LoopInv(s, i);
  }

  // ----- who exports -----

  /** The connection is still in its gateway's map, and passes the test of Forwardable for the target. */
  predicate ForwardableBy(s: System, target: string, i: Instance) {
    && i in s.loops
    && var l := s.loops[i];
       !l.stopped && ForwardTest(l.clusterMember, l.useLock, l.lockAcquired, target in l.reports)
  }

  /** Besides cluster members, only connections of one locked name report the target. */
  predicate ReportedOnlyBy(s: System, target: string, name: string) {
    forall i <- s.loops :: !s.loops[i].clusterMember && target in s.loops[i].reports ==>
      s.loops[i].name == name && s.loops[i].useLock
  }

  /** At most one gateway forwards the target while owning a live lock node for it. */
  lemma SingleExporter(s: System, target: string, name: string, i: Instance, j: Instance)
    requires Reached(s) && ReportedOnlyBy(s, target, name)
    requires ForwardableBy(s, target, i) && Holds(s.locks, i)
    requires ForwardableBy(s, target, j) && Holds(s.locks, j)
    ensures i == j
  {
    ReachedInv(s);
    assert LoopInv(s, i) && LoopInv(s, j);
    HoldersAreUnique(s.locks);
  }

  /** A loop that uses a lock passes the test only from the Try that returned true until it resets its flag. */
  lemma PassesOnlyConnected(s: System, target: string, i: Instance)
    requires Reached(s) && ForwardableBy(s, target, i) && s.loops[i].useLock
    ensures s.loops[i].lockAcquired && s.loops[i].pc in {Connecting, CheckFlag, Unlocking, LowerFlag}
    ensures !s.loops[i].stopped && !s.loops[i].clusterMember && target in s.loops[i].reports
  {
    ReachedInv(s);
    assert LoopInv(s, i);
  }

  lemma HoldsAfterMove(s: System, move: Move, i: Instance)
    requires Inv(s.locks) && CanMove(s, move) && i in s.locks.locks
    ensures Holds(LocksAfter(s, move), i) <==>
      if LockStep(s, move).Some? then HoldsNext(s.locks, LockStep(s, move).value, i) else Holds(s.locks, i)
  {
    hide Inv, HoldsNext, Holds, Apply, Enabled, LockStep;
    if LockStep(s, move).Some? {
      LockDomainAfter(s.locks, LockStep(s, move).value);
      HoldsAfter(s.locks, LockStep(s, move).value, i);
    }
  }

  /** How a hold can end under a caller that is between its calls. */
  lemma ReadyHoldEnds(w: World, step: Step, i: Instance)
    requires Enabled(w, step) && Holds(w, i) && At(w, i, MAIN) && PcOf(w, i, MAIN).Ready?
    ensures !HoldsNext(w, step, i) <==>
      || step == Expire(w.births[w.locks[i].lockPath.value].session)
      || (step.DeleteHeld? && step.i == i && step.t != MAIN && !step.reply.Refused?)
  {
  }

  /** While a loop is connected, its hold on the lock ends exactly when its session expires or a watcher deletes its node. */
  lemma BackingEndsExactlyWhen(s: System, move: Move, i: Instance)
    requires Reached(s) && CanMove(s, move) && LoopAt(s, i, Connecting) && Holds(s.locks, i)
    ensures !Holds(LocksAfter(s, move), i) <==>
      || move == Remote(Expire(s.locks.births[s.locks.locks[i].lockPath.value].session))
      || (move.Remote? && move.step.DeleteHeld? && move.step.i == i && move.step.t != MAIN && !move.step.reply.Refused?)
  {
    hide *;
    HolderIsReady(s, i);
    HoldsAfterMove(s, move, i);
    StepOfMove(s, move);
    if LockStep(s, move).Some? {
      ReadyHoldEnds(s.locks, LockStep(s, move).value, i);
    }
  }

  lemma HolderIsReady(s: System, i: Instance)
    requires Reached(s) && LoopAt(s, i, Connecting) && Holds(s.locks, i)
    ensures Inv(s.locks) && i in s.locks.locks && At(s.locks, i, MAIN) && PcOf(s.locks, i, MAIN).Ready?
  {
    hide Reached, Inv;
    ReachedInv(s);
    assert LoopInv(s, i);
  }

  /** Only remote moves take away nodes. */
  lemma StepOfMove(s: System, move: Move)
    requires CanMove(s, move)
    ensures LockStep(s, move).Some? ==> Enabled(s.locks, LockStep(s, move).value)
    ensures move.Remote? ==> LockStep(s, move) == Some(move.step)
    ensures LockStep(s, move).Some? && !move.Remote? ==>
      !LockStep(s, move).value.Expire? && !LockStep(s, move).value.DeleteHeld?
  {
    hide Enabled, LoopEnabled;
  }
}
