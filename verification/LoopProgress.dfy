/** Nothing hangs: every call of a lock can come to its end, and every loop that is stopped to its own, by its own moves. */
module LoopProgress {
  import opened Options
  import opened LockProtocol
  import opened LockSafety
  import opened LockTheorems
  import opened ConnectionLoops
  import opened LoopSafety
  import opened LoopTheorems

  // ----- calls of a lock -----

  /** How many steps a goroutine has before it at most, in the call that it is in. */
  function StepsLeft(pc: Pc): nat {
    match pc
    case Creating => 6
    case Created(_) => 5
    case Won(_) => 4
    case Losing(_, _) => 4
    case Storing(_, _) => 3
    case Stored(_, _) => 2
    case Returning(_, _) => 1
    case WantMutex => 4
    case Deleting(_) => 3
    case ClearPath(_) => 2
    case ClearFlag => 1
    case _ => 0
  }

  predicate InCall(pc: Pc) {
    TryUnderWay(pc) || pc.WantMutex? || HoldsMutex(pc)
  }

  /** No step of a call leads back: each of the caller's brings it nearer to its end. */
  lemma CallsGoForward(w: World, step: Step)
    requires Enabled(w, step) && !step.Expire? && !step.Join? && At(w, step.i, MAIN) && InCall(w.locks[step.i].threads[MAIN])
    requires ByAnyThread(step) ==> step.t == MAIN
    ensures MAIN in LockAfter(w, step).threads
    ensures StepsLeft(LockAfter(w, step).threads[MAIN]) < StepsLeft(w.locks[step.i].threads[MAIN])
  {
  }

  /** A caller that waits for the mutex waits for the goroutine that has it, too. */
  function CallLeft(l: Lock): nat
    requires MAIN in l.threads && (l.mutex.Some? ==> l.mutex.value in l.threads)
  {
    StepsLeft(l.threads[MAIN]) +
    if l.threads[MAIN].WantMutex? && l.mutex.Some? then StepsLeft(l.threads[l.mutex.value]) else 0
  }

  lemma NewThread(threads: map<Thread, Pc>) returns (t: Thread)
    ensures t !in threads
  {
    var bound: Thread := 0;
    var rest := threads.Keys;
    while rest != {}
      invariant forall u <- threads :: u in rest || u < bound
      decreases rest
    {
      var u :| u in rest;
      rest := rest - {u};
      bound := if u < bound then bound else u + 1;
    }
    t := bound;
  }

  /** The next step towards the end of a call: the caller's own, or of the goroutine that has the mutex. */
  lemma NextOfCall(w: World, i: Instance) returns (step: Step)
    requires i in w.locks && ThreadsInv(w.locks[i]) && MutexInv(w.locks[i]) && InCall(w.locks[i].threads[MAIN])
    ensures Enabled(w, step) && Actor(step, i)
    ensures !step.Join? && !step.TryStart? && !step.UnlockStart? && !step.Collect?
    ensures var l := LockAfter(w, step);
            && MAIN in l.threads && (l.mutex.Some? ==> l.mutex.value in l.threads)
            && CallLeft(l) < CallLeft(w.locks[i])
  {
    var l := w.locks[i];
    if TryUnderWay(l.threads[MAIN]) {
      step := NextOfTry(w, i);
    } else if HoldsMutex(l.threads[MAIN]) {
      step := NextOfHolder(w, i, MAIN);
    } else if l.mutex.Some? {
      step := NextOfHolder(w, i, l.mutex.value);
    } else {
      step := TakeMutex(i, MAIN);
    }
  }

  lemma NextOfTry(w: World, i: Instance) returns (step: Step)
    requires At(w, i, MAIN) && TryUnderWay(PcOf(w, i, MAIN)) && MutexInv(w.locks[i])
    ensures Enabled(w, step) && Actor(step, i) && !ByAnyThread(step)
    ensures !step.Join? && !step.TryStart? && !step.UnlockStart? && !step.Collect?
    ensures var l := LockAfter(w, step);
            && MAIN in l.threads && (l.mutex.Some? ==> l.mutex.value in l.threads)
            && CallLeft(l) < CallLeft(w.locks[i])
  {
    var t := NewThread(w.locks[i].threads);
    step := match PcOf(w, i, MAIN)
      case Creating => CreateFails(i)
      case Created(_) => ReadFails(i)
      case Won(_) => StorePath(i)
      case Losing(_, _) => DropLosing(i, Refused)
      case Storing(_, _) => StoreFlag(i)
      case Stored(_, _) => ReadFlag(i, t)
      case _ => ReturnFlag(i);
  }

  lemma NextOfHolder(w: World, i: Instance, t: Thread) returns (step: Step)
    requires At(w, i, t) && HoldsMutex(PcOf(w, i, t)) && MAIN in w.locks[i].threads && w.locks[i].mutex == Some(t)
    requires t == MAIN || w.locks[i].threads[MAIN].WantMutex?
    ensures Enabled(w, step) && Actor(step, i) && ByAnyThread(step)
    ensures var l := LockAfter(w, step);
            && MAIN in l.threads && (l.mutex.Some? ==> l.mutex.value in l.threads)
            && CallLeft(l) < CallLeft(w.locks[i])
  {
    step := match PcOf(w, i, t)
      case Deleting(_) => DeleteHeld(i, t, Refused)
      case ClearPath(_) => ErasePath(i, t)
      case _ => EraseFlag(i, t);
  }

  // ----- loops -----

  /** How far a stopped loop is from its end. */
  function Rank(pc: LoopPc): nat {
    match pc
    case WantSlot => 9
    case WantLock => 8
    case Trying => 7
    case Connecting => 6
    case CheckFlag => 5
    case Unlocking => 4
    case LowerFlag => 3
    case Head => 2
    case Exiting => 1
    case Gone => 0
  }

  function CallOf(s: System, i: Instance): nat {
    if i in s.locks.locks && MAIN in s.locks.locks[i].threads
       && (s.locks.locks[i].mutex.Some? ==> s.locks.locks[i].mutex.value in s.locks.locks[i].threads)
    then CallLeft(s.locks.locks[i])
    else 0
  }

  /** A move of the loop or of a goroutine of its lock. */
  predicate OwnMove(move: Move, i: Instance) {
    match move
    case StartGateway(_) => false
    case Remote(step) => Actor(step, i)
    case _ => move.i == i && !move.Stop? && !move.Report? && !move.Spawn?
  }

  predicate Nearer(s: System, s': System, i: Instance)
    requires i in s.loops
  {
    && i in s'.loops && s'.loops[i].stopped == s.loops[i].stopped
    && (Rank(s'.loops[i].pc) < Rank(s.loops[i].pc) || (s'.loops[i].pc == s.loops[i].pc && CallOf(s', i) < CallOf(s, i)))
  }

  /** A loop that is not over has a move of its own, or of its lock, to make; if it is stopped, one that brings it nearer
      to its end. */
  lemma NextOfLoop(s: System, i: Instance) returns (move: Move)
    requires i in s.loops && !s.loops[i].pc.Gone? && LoopInv(s, i)
    requires s.loops[i].useLock ==> ThreadsInv(s.locks.locks[i]) && MutexInv(s.locks.locks[i])
    ensures CanMove(s, move) && OwnMove(move, i)
    ensures s.loops[i].stopped ==> Nearer(s, Moved(s, move), i)
  {
    hide *;
    if s.loops[i].pc in {Trying, Unlocking} && !HasReturned(s, i) {
      CallerIsInCall(s, i);
      move := NextInCall(s, i);
    } else {
      move := NextBetweenCalls(s, i);
      if s.loops[i].stopped {
        RankFalls(s, move, i);
      }
    }
  }

  lemma CallerIsInCall(s: System, i: Instance)
    requires i in s.loops && s.loops[i].pc in {Trying, Unlocking} && LoopInv(s, i) && !HasReturned(s, i)
    ensures s.loops[i].useLock && i in s.locks.locks && At(s.locks, i, MAIN) && InCall(s.locks.locks[i].threads[MAIN])
  {
  }

  lemma NextBetweenCalls(s: System, i: Instance) returns (move: Move)
    requires i in s.loops && !s.loops[i].pc.Gone? && LoopInv(s, i)
    requires s.loops[i].pc in {Trying, Unlocking} ==> HasReturned(s, i)
    ensures CanMove(s, move) && OwnMove(move, i) && !move.Remote?
  {
    hide LockAfter, TreeAfter, HoldsMutex;
    var l := s.loops[i];
    match l.pc {
      case Head => move := CheckStopped(i);
      case WantSlot => move := AcquireSlot(i);
      case WantLock => move := if l.useLock then CallTry(i, false) else ConnectUnlocked(i);
      case Trying => move := TryReturns(i);
      case Connecting => move := Hangup(i);
      case CheckFlag => move := CallUnlock(i);
      case Unlocking => move := UnlockReturns(i);
      case LowerFlag => move := ResetFlag(i);
      case Exiting => move := Leave(i);
    }
  }

  /** Every move of a stopped loop itself brings it nearer to its end. */
  lemma RankFalls(s: System, move: Move, i: Instance)
    requires CanMove(s, move) && OwnMove(move, i) && !move.Remote? && i in s.loops && s.loops[i].stopped
    ensures Nearer(s, Moved(s, move), i)
  {
    hide Enabled, CallOf, LockStep, LocksAfter, FreeAfter, HasReturned;
  }

  lemma NextInCall(s: System, i: Instance) returns (move: Move)
    requires i in s.loops && i in s.locks.locks && ThreadsInv(s.locks.locks[i]) && MutexInv(s.locks.locks[i])
    requires InCall(s.locks.locks[i].threads[MAIN])
    ensures CanMove(s, move) && OwnMove(move, i) && Nearer(s, Moved(s, move), i)
  {
    var step := NextOfCall(s.locks, i);
    move := Remote(step);
    assert LockStep(s, move) == Some(step);
  }

  /** Once it is stopped, a loop can come to its end in every reached state, by moves of its own and of its lock, and then
      its slot is given back and its flag is down. */
  lemma StoppedLoopsEnd(s: System, i: Instance) returns (moves: seq<Move>)
    requires Reached(s) && i in s.loops && s.loops[i].stopped
    ensures CanMoveAll(s, moves) && forall m <- moves :: OwnMove(m, i)
    ensures var done := MovedAll(s, moves);
            && i in done.loops && done.loops[i].pc.Gone? && !done.loops[i].slot && !done.loops[i].lockAcquired
  {
    hide *;
    ReachedInv(s);
    moves := CanEnd(s, i);
  }

  lemma {:induction false} CanEnd(s: System, i: Instance) returns (moves: seq<Move>)
    requires SystemInv(s) && i in s.loops && s.loops[i].stopped
    ensures CanMoveAll(s, moves) && forall m <- moves :: OwnMove(m, i)
    ensures var done := MovedAll(s, moves);
            && i in done.loops && done.loops[i].pc.Gone? && !done.loops[i].slot && !done.loops[i].lockAcquired
    decreases Rank(s.loops[i].pc), CallOf(s, i)
  {
    hide CanMove, Moved, LockInv, OwnMove, CallOf;
    assert LoopInv(s, i);
    if s.loops[i].pc.Gone? {
      moves := [];
    } else {
      if s.loops[i].useLock {
        LockOfLoop(s, i);
      }
      var move := NextOfLoop(s, i);
      MoveKeepsInv(s, move);
      var rest := CanEnd(Moved(s, move), i);
      moves := [move] + rest;
      assert moves[1..] == rest;
    }
  }

  lemma LockOfLoop(s: System, i: Instance)
    requires SystemInv(s) && i in s.loops && s.loops[i].useLock
    ensures i in s.locks.locks && ThreadsInv(s.locks.locks[i]) && MutexInv(s.locks.locks[i])
  {
    assert LoopInv(s, i);
    assert LockInv(s.locks, i, s.locks.locks[i]);
  }
}
