/** Runs in which all goes well, built move by move: what can happen although neither Zookeeper nor a connection fails. */
module SmoothRuns {
  import opened Options
  import opened LockProtocol
  import opened LockSafety
  import opened LockTheorems
  import opened ConnectionLoops
  import opened LoopSafety
  import opened FaultFree

  /** What a run is allowed beyond that: stale decisions of watchers, and Deletes that are refused. */
  datatype Leeway = Leeway(stale: bool, refusals: bool)

  predicate SmoothStep(lee: Leeway, step: Step) {
    && !Faulty(step) && (Stale(step) ==> lee.stale)
    && !step.CreateFails? && !step.CreateLost? && !step.ReadFails?
    && (step.DropLosing? ==> step.reply.Done?)
    && (step.DeleteHeld? ==> step.reply.Done? || lee.refusals)
  }

  predicate Smooth(lee: Leeway, move: Move) {
    (move.CallTry? ==> move.connected) && (move.Remote? ==> SmoothStep(lee, move.step))
  }

  predicate AllSmooth(lee: Leeway, moves: seq<Move>) {
    forall m <- moves :: Smooth(lee, m)
  }

  ghost predicate SmoothlyReached(lee: Leeway, s: System) {
    exists moves :: AllSmooth(lee, moves) && CanMoveAll(Initially(s.prefix, s.limit), moves) &&
      MovedAll(Initially(s.prefix, s.limit), moves) == s
  }

  /** Without stale decisions, such runs are calm. */
  lemma SmoothIsCalm(lee: Leeway, s: System)
    requires SmoothlyReached(lee, s) && !lee.stale
    ensures CalmlyReached(s)
  {
    var moves :| AllSmooth(lee, moves) && CanMoveAll(Initially(s.prefix, s.limit), moves) &&
      MovedAll(Initially(s.prefix, s.limit), moves) == s;
    assert Calm(moves);
  }

  lemma {:induction false} MovedAppend(s: System, moves: seq<Move>, move: Move)
    requires CanMoveAll(s, moves) && CanMove(MovedAll(s, moves), move)
    ensures CanMoveAll(s, moves + [move]) && MovedAll(s, moves + [move]) == Moved(MovedAll(s, moves), move)
    decreases |moves|
  {
    hide CanMove, Moved;
    if moves == [] {
      assert moves + [move] == [move];
      assert CanMoveAll(Moved(s, move), []);
    } else {
      assert (moves + [move])[0] == moves[0] && (moves + [move])[1..] == moves[1..] + [move];
      MovedAppend(Moved(s, moves[0]), moves[1..], move);
    }
  }

  lemma Next(lee: Leeway, s: System, move: Move) returns (s': System)
    requires SmoothlyReached(lee, s) && CanMove(s, move) && Smooth(lee, move)
    ensures s' == Moved(s, move) && SmoothlyReached(lee, s')
  {
    hide CanMoveAll, MovedAll, CanMove, Smooth, LoopsAfter, FreeAfter, LocksAfter;
    var moves :| AllSmooth(lee, moves) && CanMoveAll(Initially(s.prefix, s.limit), moves) &&
      MovedAll(Initially(s.prefix, s.limit), moves) == s;
    MovedAppend(Initially(s.prefix, s.limit), moves, move);
    s' := Moved(s, move);
    assert AllSmooth(lee, moves + [move]);
  }

  lemma Beginning(lee: Leeway) returns (s: System)
    ensures SmoothlyReached(lee, s) && s == Initially("", 1)
  {
    s := Initially("", 1);
    assert AllSmooth(lee, []) && CanMoveAll(s, []) && MovedAll(s, []) == s;
  }

  /** No session expires. */
  lemma {:induction false} NothingExpires(lee: Leeway, s: System, moves: seq<Move>)
    requires AllSmooth(lee, moves) && CanMoveAll(s, moves) && s.locks.expired == {}
    ensures MovedAll(s, moves).locks.expired == {}
    decreases |moves|
  {
    if moves != [] {
      MoveExpiresNothing(lee, s, moves[0]);
      hide CanMove, Moved, Smooth;
      NothingExpires(lee, Moved(s, moves[0]), moves[1..]);
    }
  }

  lemma MoveExpiresNothing(lee: Leeway, s: System, move: Move)
    requires CanMove(s, move) && Smooth(lee, move) && s.locks.expired == {}
    ensures Moved(s, move).locks.expired == {}
  {
    hide LockAfter, LoopsAfter, FreeAfter, Enabled, LoopEnabled;
  }

  // ----- one loop at a time -----

  /** Loop `i`, with its slot, is at `pc`, and its lock is `l`. */
  ghost predicate Scene(lee: Leeway, s: System, i: Instance, pc: LoopPc, l: Lock) {
    && SmoothlyReached(lee, s) && LoopAt(s, i, pc) && s.loops[i].useLock && s.loops[i].slot && !s.loops[i].stopped
    && s.loops[i].lockAcquired == (pc in {Connecting, CheckFlag, Unlocking, LowerFlag}) && s.loops[i].gateway in s.free
    && i in s.locks.locks && s.locks.locks[i] == l && MAIN in l.threads
  }

  /** Only loop `i` has moved. */
  ghost predicate Frame(s0: System, s: System, i: Instance) {
    && (forall j <- s0.loops :: j != i ==> j in s.loops && s.loops[j] == s0.loops[j])
    && s.loops.Keys == s0.loops.Keys + {i} && s.locks.locks.Keys == s0.locks.locks.Keys + {i}
    && s0.free.Keys <= s.free.Keys <= s0.free.Keys + {i} && s.prefix == s0.prefix && s.limit == s0.limit
    && (i in s0.loops && i in s.loops ==>
          s.loops[i].name == s0.loops[i].name && s.loops[i].gateway == s0.loops[i].gateway)
  }

  ghost predicate SameTree(w0: World, w: World) {
    w.births == w0.births && w.deaths == w0.deaths && w.now == w0.now && w.expired == w0.expired
  }

  lemma FramesAddUp(s0: System, s1: System, s2: System, i: Instance)
    requires Frame(s0, s1, i) && Frame(s1, s2, i) && i in s1.loops
    ensures Frame(s0, s2, i)
  {
  }

  /** A step of loop `i`'s lock that is neither the start nor the end of a call. */
  lemma Steps(lee: Leeway, s0: System, i: Instance, pc: LoopPc, step: Step) returns (s: System)
    requires i in s0.locks.locks && Scene(lee, s0, i, pc, s0.locks.locks[i])
    requires Enabled(s0.locks, step) && SmoothStep(lee, step) && Actor(step, i)
    requires !step.Join? && !step.TryStart? && !step.UnlockStart? && !step.Collect? && MAIN in LockAfter(s0.locks, step).threads
    ensures Scene(lee, s, i, pc, LockAfter(s0.locks, step)) && Frame(s0, s, i)
    ensures SameTree(TreeAfter(s0.locks, step), s.locks) && s.loops == s0.loops
  {
    hide SmoothlyReached, Enabled, LockAfter, TreeAfter, SmoothStep;
    s := Next(lee, s0, Remote(step));
    TreeKeepsLocks(s0.locks, step);
  }

  lemma TreeKeepsLocks(w: World, step: Step)
    requires Enabled(w, step)
    ensures TreeAfter(w, step).locks == w.locks
  {
  }
}
