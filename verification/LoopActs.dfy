/** The connection loops of the step machine do what the loops as written do: their acts are lawful. */
module LoopActs {
  import opened Options
  import opened LockProtocol
  import opened ConnectionLoops
  import opened LoopSafety
  import opened LoopTheorems
  import opened ConnectLoop

  /** What loop `i` does in a move. */
  function ActsOf(s: System, move: Move, i: Instance): seq<Act>
    requires CanMove(s, move)
  {
    match move
    case AcquireSlot(k) => if k != i then [] else if s.free[s.loops[i].gateway] > 0 then [SlotTaken] else [SlotRefused]
    case TryReturns(k) =>
      if k != i then []
      else if PcOf(s.locks, i, MAIN).outcome.ok then [Tried(true), Connected] else [Tried(false)]
    case ConnectUnlocked(k) => if k == i then [Connected] else []
    case CallUnlock(k) =>
      if k != i then []
      else if i in s.locks.locks && s.locks.locks[i].acquired then [Asked(true), Unlocked] else [Asked(false)]
    case ResetFlag(k) => if k == i then [FlagLowered] else []
    case Leave(k) => if k == i && s.loops[i].slot then [SlotReleased] else []
    case _ => []
  }

  function Acts(s: System, moves: seq<Move>, i: Instance): seq<Act>
    requires CanMoveAll(s, moves)
    decreases |moves|
  {
    if moves == [] then [] else ActsOf(s, moves[0], i) + Acts(Moved(s, moves[0]), moves[1..], i)
  }

  predicate RoundIsOver(acts: seq<Act>, useLock: bool) {
    if useLock then EndsWith(acts, Tried(false)) || EndsWith(acts, FlagLowered) else EndsWith(acts, Connected)
  }

  /** Where a loop is, after what it has done. */
  predicate Matches(l: Loop, acts: seq<Act>) {
    match l.pc
    case WantLock => EndsWith(acts, SlotTaken) || RoundIsOver(acts, l.useLock)
    case Trying => EndsWith(acts, SlotTaken) || RoundIsOver(acts, l.useLock)
    case Connecting => EndsWith(acts, Connected)
    case CheckFlag => EndsWith(acts, Connected)
    case Unlocking => EndsWith(acts, Unlocked)
    case LowerFlag => EndsWith(acts, Asked(false)) || EndsWith(acts, Unlocked)
    case Gone => MayEnd(acts)
    case _ => if l.slot then RoundIsOver(acts, l.useLock) else acts == [] || EndsWith(acts, SlotRefused)
  }

  /** A loop that is not there has done nothing. */
  predicate Tracks(s: System, i: Instance, acts: seq<Act>) {
    if i in s.loops then Lawful(acts, s.loops[i].useLock) && Matches(s.loops[i], acts) else acts == []
  }

  /** What the loop does may follow what it has done. */
  lemma ActMayFollow(s: System, move: Move, i: Instance, acts: seq<Act>)
    requires CanMove(s, move) && !move.StartGateway? && !move.Remote? && move.i == i && !move.Spawn?
    requires i in s.loops && LoopInv(s, i) && Tracks(s, i, acts) && ActsOf(s, move, i) != []
    ensures var a := ActsOf(s, move, i)[0];
            if acts == [] then a.SlotRefused? || a.SlotTaken? else MayFollow(acts[|acts| - 1], a, s.loops[i].useLock)
  {
    hide Enabled, InTune, Lawful;
  }

  lemma NextMatches(s: System, move: Move, i: Instance, acts: seq<Act>)
    requires CanMove(s, move) && !move.StartGateway? && !move.Remote? && move.i == i && !move.Spawn?
    requires i in s.loops && LoopInv(s, i) && Tracks(s, i, acts)
    ensures Matches(LoopAfter(s, move), acts + ActsOf(s, move, i)) && LoopAfter(s, move).useLock == s.loops[i].useLock
  {
    hide Enabled, InTune, Lawful;
    assert acts + [] == acts;
  }

  lemma OwnMoveIsLawful(s: System, move: Move, i: Instance, acts: seq<Act>)
    requires CanMove(s, move) && !move.StartGateway? && !move.Remote? && move.i == i && !move.Spawn?
    requires i in s.loops && LoopInv(s, i) && Tracks(s, i, acts)
    ensures Tracks(Moved(s, move), i, acts + ActsOf(s, move, i))
  {
    NextMatches(s, move, i, acts);
    hide CanMove, Lawful, Rounds, Matches, LocksAfter, FreeAfter, LoopAfter;
    var useLock, done := s.loops[i].useLock, ActsOf(s, move, i);
    if done == [] {
      assert acts + [] == acts;
    } else {
      ActMayFollow(s, move, i, acts);
      OneMoreAct(acts, useLock, done[0]);
      if |done| == 2 {
        OneMoreAct(acts + [done[0]], useLock, done[1]);
        assert acts + done == acts + [done[0]] + [done[1]];
      } else {
        assert done == [done[0]];
      }
    }
  }

  lemma MoveIsLawful(s: System, move: Move, i: Instance, acts: seq<Act>)
    requires SystemInv(s) && CanMove(s, move) && Tracks(s, i, acts)
    ensures Tracks(Moved(s, move), i, acts + ActsOf(s, move, i))
  {
    assert i in s.loops ==> LoopInv(s, i);
    hide SystemInv, LoopInv, Enabled, Matches;
    if !move.StartGateway? && !move.Remote? && move.i == i {
      if move.Spawn? {
        StartsLawful(s, move, i, acts);
      } else {
        assert i in s.loops;
        OwnMoveIsLawful(s, move, i, acts);
      }
    } else {
      assert acts + [] == acts;
    }
  }

  lemma StartsLawful(s: System, move: Move, i: Instance, acts: seq<Act>)
    requires CanMove(s, move) && move.Spawn? && move.i == i && acts == []
    ensures Tracks(Moved(s, move), i, acts + ActsOf(s, move, i))
  {
    hide Enabled, Apply;
  }

  lemma {:induction false} MovesAreLawful(s: System, moves: seq<Move>, i: Instance, acts: seq<Act>)
    requires SystemInv(s) && CanMoveAll(s, moves) && Tracks(s, i, acts)
    ensures Tracks(MovedAll(s, moves), i, acts + Acts(s, moves, i))
    decreases |moves|
  {
    hide SystemInv, CanMove, Moved, Tracks;
    if moves == [] {
      assert acts + [] == acts;
    } else {
      var now := ActsOf(s, moves[0], i);
      MoveIsLawful(s, moves[0], i, acts);
      MoveKeepsInv(s, moves[0]);
      MovesAreLawful(Moved(s, moves[0]), moves[1..], i, acts + now);
      var later := Acts(Moved(s, moves[0]), moves[1..], i);
      assert acts + (now + later) == acts + now + later;
    }
  }

  lemma StartIsSound(prefix: string, limit: nat)
    ensures SystemInv(Initially(prefix, limit))
  {
  }

  /** Over every run of the cluster, each loop does what a loop as written may do, and an ended one has done all of it. */
  lemma LoopsAreLawful(prefix: string, limit: nat, moves: seq<Move>, i: Instance)
    requires CanMoveAll(Initially(prefix, limit), moves) && i in MovedAll(Initially(prefix, limit), moves).loops
    ensures var l := MovedAll(Initially(prefix, limit), moves).loops[i];
            var acts := Acts(Initially(prefix, limit), moves, i);
            Lawful(acts, l.useLock) && (l.pc.Gone? ==> MayEnd(acts))
  {
    var s := Initially(prefix, limit);
    StartIsSound(prefix, limit);
    hide SystemInv, CanMoveAll, MovedAll, Acts;
    MovesAreLawful(s, moves, i, []);
    assert [] + Acts(s, moves, i) == Acts(s, moves, i);
  }
}
