/** What every run of the connection loops keeps. */
module LoopSafety {
  import opened Options
  import opened LockProtocol
  import opened LockSafety
  import opened LockTheorems
  import opened ConnectionLoops

  /** The caller of a lock is where its connection loop is. */
  predicate InTune(loop: LoopPc, caller: Pc) {
    match loop
    case Trying => TryUnderWay(caller) || (caller.Returned? && caller.outcome.TryOutcome?)
    case Unlocking => caller.WantMutex? || HoldsMutex(caller) || (caller.Returned? && caller.outcome.UnlockOutcome?)
    case _ => caller.Ready?
  }

  /** A loop connects only with a slot and, if it uses a lock, only after Try returned true; the flag is up
      from that moment until it is reset, and never at the head of the loop or after its end. */
  predicate Disciplined(l: Loop) {
    && (l.pc in {WantLock, Trying, Connecting, CheckFlag, Unlocking, LowerFlag} ==> l.slot)
    && (l.pc in {WantSlot, Gone} ==> !l.slot)
    && (l.lockAcquired <==> l.useLock && l.pc in {Connecting, CheckFlag, Unlocking, LowerFlag})
    && (l.pc in {Trying, CheckFlag, Unlocking, LowerFlag} ==> l.useLock)
    && (l.late > 0 ==> l.stopped)
    && l.late <= 1
    && (l.late == 1 ==> l.pc in {Head, Connecting, CheckFlag, Unlocking, LowerFlag, Exiting, Gone})
  }

  ghost predicate LoopInv(s: System, i: Instance)
    requires i in s.loops
  {
    var l := s.loops[i];
    && Disciplined(l) && l.gateway in s.free
    && (l.useLock <==> i in s.locks.locks)
    && (l.useLock ==>
          && At(s.locks, i, MAIN) && s.locks.locks[i].id == LockId(s.prefix, l.name)
          && InTune(l.pc, PcOf(s.locks, i, MAIN)))
  }

  /** The loops of gateway `g` that hold a slot. */
  function SlotHolders(s: System, g: Gateway): set<Instance> {
    set i <- s.loops | s.loops[i].gateway == g && s.loops[i].slot
  }

  ghost predicate Conserved(s: System, g: Gateway)
    requires g in s.free
  {
    s.free[g] + |SlotHolders(s, g)| == s.limit
  }

  ghost predicate SystemInv(s: System) {
    && Inv(s.locks)
    && (forall i <- s.loops :: LoopInv(s, i))
    && (forall g <- s.free :: Conserved(s, g))
  }

  // ----- one move -----

  lemma MoveKeepsLocks(s: System, move: Move)
    requires Inv(s.locks) && CanMove(s, move)
    ensures Inv(LocksAfter(s, move))
  {
    if LockStep(s, move).Some? {
      StepKeepsInv(s.locks, LockStep(s, move).value);
    }
  }

  lemma MoverIsDisciplined(s: System, move: Move)
    requires CanMove(s, move) && !move.StartGateway? && !move.Remote?
    requires !move.Spawn? ==> move.i in s.loops && Disciplined(s.loops[move.i])
    ensures Disciplined(LoopAfter(s, move))
  {
  }

  /** A step that is not the start or the end of a call leaves the caller inside the same call. */
  lemma StepStaysInTune(w: World, step: Step, i: Instance, loop: LoopPc)
    requires Enabled(w, step) && At(w, i, MAIN) && (Actor(step, i) ==> ThreadsInv(w.locks[i]) && MutexInv(w.locks[i]))
    requires InTune(loop, PcOf(w, i, MAIN))
    requires Actor(step, i) ==> !step.Join? && !step.TryStart? && !step.UnlockStart? && !step.Collect?
    ensures At(Apply(w, step), i, MAIN) && InTune(loop, PcOf(Apply(w, step), i, MAIN))
    ensures Apply(w, step).locks[i].id == w.locks[i].id
  {
    hide Apply, FreshNumber, IsLowestAt, Live;
    LocksAfterStep(w, step);
  }

  lemma LockDomainAfter(w: World, step: Step)
    requires Enabled(w, step)
    ensures Apply(w, step).locks.Keys == w.locks.Keys + if step.Join? then {step.i} else {}
  {
  }

  /** The loop that does not move only sees steps of the lock protocol. */
  lemma OthersKeepInv(s: System, move: Move, i: Instance)
    requires i in s.loops && LoopInv(s, i) && CanMove(s, move)
    requires s.loops[i].useLock ==> ThreadsInv(s.locks.locks[i]) && MutexInv(s.locks.locks[i])
    requires move.StartGateway? || move.Remote? || move.i != i
    ensures LoopInv(Moved(s, move), i)
  {
    if LockStep(s, move).Some? {
      var step := LockStep(s, move).value;
      LockDomainAfter(s.locks, step);
      hide Apply, Disciplined, InTune, ThreadsInv, MutexInv, Enabled;
      if s.loops[i].useLock {
        StepStaysInTune(s.locks, step, i, s.loops[i].pc);
      }
    }
  }

  /** The loop that moves starts and ends calls of its own lock only. */
  lemma MoverKeepsInv(s: System, move: Move)
    requires CanMove(s, move) && !move.StartGateway? && !move.Remote?
    requires !move.Spawn? ==> LoopInv(s, move.i)
    ensures LoopInv(Moved(s, move), move.i)
  {
    MoverIsDisciplined(s, move);
    MoverStaysInTune(s, move);
    if LockStep(s, move).Some? {
      LockDomainAfter(s.locks, LockStep(s, move).value);
    }
    hide Apply, Disciplined, InTune, Enabled;
  }

  lemma MoverStaysInTune(s: System, move: Move)
    requires CanMove(s, move) && !move.StartGateway? && !move.Remote?
    requires !move.Spawn? ==> LoopInv(s, move.i)
    ensures var l := LoopAfter(s, move);
            l.useLock ==>
              && At(LocksAfter(s, move), move.i, MAIN)
              && LocksAfter(s, move).locks[move.i].id == LockId(s.prefix, l.name)
              && InTune(l.pc, PcOf(LocksAfter(s, move), move.i, MAIN))
  {
  }

  lemma SlotsAfter(s: System, move: Move, g: Gateway)
    requires CanMove(s, move) && (!move.StartGateway? && !move.Remote? && !move.Spawn? ==> Disciplined(s.loops[move.i]))
    ensures SlotHolders(Moved(s, move), g) ==
      match move
      case AcquireSlot(i) =>
        if s.loops[i].gateway == g && s.free[g] > 0 then SlotHolders(s, g) + {i} else SlotHolders(s, g)
      case Leave(i) => SlotHolders(s, g) - {i}
      case _ => SlotHolders(s, g)
  {
  }

  lemma FreeSlotsAfter(s: System, move: Move, g: Gateway)
    requires CanMove(s, move) && g in s.free
    ensures g in FreeAfter(s, move) && FreeAfter(s, move)[g] ==
      match move
      case AcquireSlot(i) => if s.loops[i].gateway == g && s.free[g] > 0 then s.free[g] - 1 else s.free[g]
      case Leave(i) => if s.loops[i].gateway == g && s.loops[i].slot then s.free[g] + 1 else s.free[g]
      case _ => s.free[g]
  {
  }

  lemma MoveConserves(s: System, move: Move, g: Gateway)
    requires CanMove(s, move) && g in s.free && Conserved(s, g)
    requires !move.StartGateway? && !move.Remote? && !move.Spawn? ==> Disciplined(s.loops[move.i])
    ensures g in FreeAfter(s, move) && Conserved(Moved(s, move), g)
  {
    SlotsAfter(s, move, g);
    FreeSlotsAfter(s, move, g);
  }

  /** A gateway starts with all its slots, and no loop of its own. */
  lemma StartConserves(s: System, g: Gateway)
    requires CanMove(s, StartGateway(g)) && forall i <- s.loops :: s.loops[i].gateway in s.free
    ensures Conserved(Moved(s, StartGateway(g)), g)
  {
    assert SlotHolders(Moved(s, StartGateway(g)), g) == {};
  }

  lemma MoveKeepsInv(s: System, move: Move)
    requires SystemInv(s) && CanMove(s, move)
    ensures SystemInv(Moved(s, move))
  {
    MoveKeepsLocks(s, move);
    var s' := Moved(s, move);
    forall i <- s'.loops
      ensures LoopInv(s', i)
    {
      if move.StartGateway? || move.Remote? || move.i != i {
        assert LoopInv(s, i);
        assert s.loops[i].useLock ==> LockInv(s.locks, i, s.locks.locks[i]);
        OthersKeepInv(s, move, i);
      } else {
        MoverKeepsInv(s, move);
      }
    }
    forall g <- s'.free
      ensures Conserved(s', g)
    {
      assert forall i <- s.loops :: LoopInv(s, i);
      if g in s.free {
        MoveConserves(s, move, g);
      } else {
        StartConserves(s, g);
      }
    }
  }
}
