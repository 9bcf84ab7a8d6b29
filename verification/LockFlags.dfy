/** How far the flag `acquired` says whether `lockPath` is set, now that watchers may unlock beside the caller. */
module LockFlags {
  import opened Options
  import opened LockProtocol
  import opened LockSafety
  import opened LockTheorems

  predicate ErasesFlag(step: Step, i: Instance) {
    step.EraseFlag? && step.i == i
  }

  predicate ErasesPath(step: Step, i: Instance) {
    step.ErasePath? && step.i == i
  }

  predicate StoresPath(step: Step, i: Instance) {
    step.StorePath? && step.i == i
  }

  // ----- between storing the answer of try and returning the flag -----

  /** The caller has stored that it won, and has not returned yet. */
  predicate HasStored(w: World, i: Instance) {
    At(w, i, MAIN) && (PcOf(w, i, MAIN).Stored? || PcOf(w, i, MAIN).Returning?) && PcOf(w, i, MAIN).ok
  }

  lemma StepAfterStore(w: World, step: Step, i: Instance)
    requires HasStored(w, i) && ThreadsInv(w.locks[i]) && Enabled(w, step) && step != ReturnFlag(i)
    ensures HasStored(Apply(w, step), i)
    ensures Apply(w, step).locks[i].acquired == (w.locks[i].acquired && !ErasesFlag(step, i))
  {
    LocksAfterStep(w, step);
    hide Apply, FreshNumber, IsLowestAt, Live;
  }

  /** Until a Try that has won returns, the flag falls exactly if an Unlock of a watcher of the same lock lowers it. */
  lemma {:induction false} FlagFallsIff(w: World, steps: seq<Step>, i: Instance)
    requires Inv(w) && HasStored(w, i) && CanRun(w, steps) && ReturnFlag(i) !in steps
    ensures HasStored(Run(w, steps), i)
    ensures Run(w, steps).locks[i].acquired <==> w.locks[i].acquired && forall s <- steps :: !ErasesFlag(s, i)
    decreases |steps|
  {
    hide Inv, Apply, Enabled, ThreadsInv, MutexInv;
    if steps != [] {
      InvAt(w, i);
      StepAfterStore(w, steps[0], i);
      StepKeepsInv(w, steps[0]);
      FlagFallsIff(Apply(w, steps[0]), steps[1..], i);
      assert steps == [steps[0]] + steps[1..];
    }
  }

  /** So a Try that has won returns false exactly if that happens after it has stored its answer. */
  lemma ReturnsFalseIff(w: World, stored: World, steps: seq<Step>, last: World, i: Instance)
    requires Reachable(w) && Enabled(w, StoreFlag(i)) && PcOf(w, i, MAIN).ok && stored == Apply(w, StoreFlag(i))
    requires CanRun(stored, steps) && ReturnFlag(i) !in steps && last == Run(stored, steps)
    requires Enabled(last, ReturnFlag(i))
    ensures At(Apply(last, ReturnFlag(i)), i, MAIN)
    ensures var pc := PcOf(Apply(last, ReturnFlag(i)), i, MAIN);
            && pc.Returned? && pc.outcome.TryOutcome? && pc.outcome.won
            && (!pc.outcome.ok <==> exists s <- steps :: ErasesFlag(s, i))
  {
    hide *;
    ReachableInv(w);
    StepKeepsInv(w, StoreFlag(i));
    StoresAnswer(w, i);
    FlagFallsIff(stored, steps, i);
    ReturnsAnswer(last, i);
  }

  lemma StoresAnswer(w: World, i: Instance)
    requires Enabled(w, StoreFlag(i)) && PcOf(w, i, MAIN).ok
    ensures HasStored(Apply(w, StoreFlag(i)), i) && Apply(w, StoreFlag(i)).locks[i].acquired
    ensures Apply(w, StoreFlag(i)).locks[i].lockPath == w.locks[i].lockPath
  {
  }

  lemma ReturnsAnswer(w: World, i: Instance)
    requires HasStored(w, i) && Enabled(w, ReturnFlag(i))
    ensures At(Apply(w, ReturnFlag(i)), i, MAIN)
    ensures var pc := PcOf(Apply(w, ReturnFlag(i)), i, MAIN);
            pc.Returned? && pc.outcome.TryOutcome? && pc.outcome.won && pc.outcome.ok == w.locks[i].acquired
  {
  }

  // ----- between reading or storing the path and storing the answer -----

  /** The caller has read or stored a path, and is about to store that it has the lock. */
  predicate HasPath(w: World, i: Instance) {
    At(w, i, MAIN) && PcOf(w, i, MAIN).Storing? && PcOf(w, i, MAIN).ok
  }

  lemma StepBeforeStore(w: World, step: Step, i: Instance)
    requires HasPath(w, i) && ThreadsInv(w.locks[i]) && Enabled(w, step) && step != StoreFlag(i)
    ensures HasPath(Apply(w, step), i)
    ensures Apply(w, step).locks[i].lockPath == if ErasesPath(step, i) then None else w.locks[i].lockPath
  {
    LocksAfterStep(w, step);
    hide Apply, FreshNumber, IsLowestAt, Live;
  }

  /** The path is gone when the flag goes up exactly if an Unlock of a watcher has erased it since Try read or stored it. */
  lemma {:induction false} PathFallsIff(w: World, steps: seq<Step>, i: Instance)
    requires Inv(w) && HasPath(w, i) && CanRun(w, steps) && StoreFlag(i) !in steps
    ensures HasPath(Run(w, steps), i)
    ensures Run(w, steps).locks[i].lockPath.Some? <==>
      w.locks[i].lockPath.Some? && forall s <- steps :: !ErasesPath(s, i)
    decreases |steps|
  {
    hide Inv, Apply, Enabled, ThreadsInv, MutexInv;
    if steps != [] {
      InvAt(w, i);
      StepBeforeStore(w, steps[0], i);
      StepKeepsInv(w, steps[0]);
      PathFallsIff(Apply(w, steps[0]), steps[1..], i);
      assert steps == [steps[0]] + steps[1..];
    }
  }

  /** Try raises the flag without a path exactly if a watcher has erased the path since Try read or stored it. */
  lemma FlagWithoutPathIff(w: World, start: Step, found: World, steps: seq<Step>, last: World, i: Instance)
    requires Reachable(w) && Enabled(w, start) && found == Apply(w, start)
    requires start == StorePath(i) || (start == TryStart(i, true) && w.locks[i].lockPath.Some?)
    requires CanRun(found, steps) && StoreFlag(i) !in steps && last == Run(found, steps)
    ensures Enabled(last, StoreFlag(i)) && Apply(last, StoreFlag(i)).locks[i].acquired
    ensures Apply(last, StoreFlag(i)).locks[i].lockPath.None? <==> exists s <- steps :: ErasesPath(s, i)
  {
    hide *;
    ReachableInv(w);
    StepKeepsInv(w, start);
    FindsPath(w, start, i);
    PathFallsIff(found, steps, i);
    AboutToStore(last, i);
    StoresAnswer(last, i);
  }

  lemma FindsPath(w: World, start: Step, i: Instance)
    requires Enabled(w, start)
    requires start == StorePath(i) || (start == TryStart(i, true) && w.locks[i].lockPath.Some?)
    ensures HasPath(Apply(w, start), i) && Apply(w, start).locks[i].lockPath.Some?
  {
  }

  lemma AboutToStore(w: World, i: Instance)
    requires HasPath(w, i)
    ensures Enabled(w, StoreFlag(i)) && PcOf(w, i, MAIN).ok
  {
  }

  // ----- between erasing the path and lowering the flag -----

  predicate HasErased(w: World, i: Instance, t: Thread) {
    At(w, i, t) && PcOf(w, i, t).ClearFlag?
  }

  lemma StepAfterErase(w: World, step: Step, i: Instance, t: Thread)
    requires HasErased(w, i, t) && ThreadsInv(w.locks[i]) && MutexInv(w.locks[i])
    requires Enabled(w, step) && step != EraseFlag(i, t)
    ensures HasErased(Apply(w, step), i, t)
    ensures Apply(w, step).locks[i].lockPath.Some? == (w.locks[i].lockPath.Some? || StoresPath(step, i))
  {
    LocksAfterStep(w, step);
    hide Apply, FreshNumber, IsLowestAt, Live;
  }

  lemma {:induction false} PathComesBackIff(w: World, steps: seq<Step>, i: Instance, t: Thread)
    requires Inv(w) && HasErased(w, i, t) && CanRun(w, steps) && EraseFlag(i, t) !in steps
    ensures HasErased(Run(w, steps), i, t)
    ensures Run(w, steps).locks[i].lockPath.Some? <==>
      w.locks[i].lockPath.Some? || exists s <- steps :: StoresPath(s, i)
    decreases |steps|
  {
    hide Inv, Apply, Enabled, ThreadsInv, MutexInv;
    if steps != [] {
      InvAt(w, i);
      StepAfterErase(w, steps[0], i, t);
      StepKeepsInv(w, steps[0]);
      PathComesBackIff(Apply(w, steps[0]), steps[1..], i, t);
      assert steps == [steps[0]] + steps[1..];
    }
  }

  /** An Unlock lowers the flag of a lock with a path exactly if a Try has stored one since the Unlock erased its own. */
  lemma PathWithoutFlagIff(w: World, erased: World, steps: seq<Step>, last: World, i: Instance, t: Thread)
    requires Reachable(w) && Enabled(w, ErasePath(i, t)) && erased == Apply(w, ErasePath(i, t))
    requires CanRun(erased, steps) && EraseFlag(i, t) !in steps && last == Run(erased, steps)
    ensures Enabled(last, EraseFlag(i, t)) && !Apply(last, EraseFlag(i, t)).locks[i].acquired
    ensures Apply(last, EraseFlag(i, t)).locks[i].lockPath.Some? <==> exists s <- steps :: StoresPath(s, i)
  {
    hide *;
    ReachableInv(w);
    StepKeepsInv(w, ErasePath(i, t));
    Erases(w, i, t);
    PathComesBackIff(erased, steps, i, t);
    LowersFlag(last, i, t);
  }

  lemma Erases(w: World, i: Instance, t: Thread)
    requires Enabled(w, ErasePath(i, t))
    ensures HasErased(Apply(w, ErasePath(i, t)), i, t) && Apply(w, ErasePath(i, t)).locks[i].lockPath.None?
  {
  }

  lemma LowersFlag(w: World, i: Instance, t: Thread)
    requires HasErased(w, i, t)
    ensures Enabled(w, EraseFlag(i, t)) && i in Apply(w, EraseFlag(i, t)).locks
    ensures !Apply(w, EraseFlag(i, t)).locks[i].acquired
    ensures Apply(w, EraseFlag(i, t)).locks[i].lockPath == w.locks[i].lockPath
  {
  }

  // ----- runs in which flag and path agree -----

  /** No watcher has the mutex while a Try is under way. */
  ghost predicate Apart(l: Lock) {
    MAIN in l.threads && (l.mutex.Some? && l.mutex != Some(MAIN) ==> !TryUnderWay(l.threads[MAIN]))
  }

  ghost predicate AllApart(w: World) {
    forall i <- w.locks :: Apart(w.locks[i])
  }

  ghost predicate ApartRun(w: World, steps: seq<Step>)
    requires CanRun(w, steps)
    decreases |steps|
  {
    AllApart(w) && (steps != [] ==> ApartRun(Apply(w, steps[0]), steps[1..]))
  }

  /** An Unlock has erased the path and not yet lowered the flag. */
  predicate Erasing(l: Lock) {
    l.mutex.Some? && l.mutex.value in l.threads && l.threads[l.mutex.value].ClearFlag?
  }

  ghost predicate Agrees(l: Lock) {
    && MAIN in l.threads
    && (Erasing(l) ==> l.acquired && l.lockPath.None?)
    && match l.threads[MAIN]
       case Storing(ok, _) => ok == l.lockPath.Some?
       case Stored(ok, _) => l.acquired == ok == l.lockPath.Some?
       case Returning(ok, _) => l.acquired == ok == l.lockPath.Some?
       case _ => Erasing(l) || l.acquired == l.lockPath.Some?
  }

  ghost predicate AllAgree(w: World) {
    forall i <- w.locks :: Agrees(w.locks[i])
  }

  lemma CallerAgrees(w: World, step: Step)
    requires Enabled(w, step) && !step.Expire? && !ByAnyThread(step)
    requires !step.Join? ==>
      && ThreadsInv(w.locks[step.i]) && MutexInv(w.locks[step.i])
      && Agrees(w.locks[step.i]) && Apart(w.locks[step.i]) && Apart(LockAfter(w, step))
    ensures Agrees(LockAfter(w, step))
  {
    hide FreshNumber, IsLowestAt, Live;
  }

  lemma ThreadAgrees(w: World, step: Step)
    requires Enabled(w, step) && ByAnyThread(step) && ThreadsInv(w.locks[step.i]) && MutexInv(w.locks[step.i])
    requires Agrees(w.locks[step.i]) && Apart(w.locks[step.i]) && Apart(LockAfter(w, step))
    ensures Agrees(LockAfter(w, step))
  {
    hide FreshNumber, IsLowestAt, Live;
  }

  lemma ActorAgrees(w: World, step: Step)
    requires Inv(w) && Enabled(w, step) && !step.Expire?
    requires !step.Join? ==> Agrees(w.locks[step.i]) && Apart(w.locks[step.i])
    requires Apart(LockAfter(w, step))
    ensures Agrees(LockAfter(w, step))
  {
    hide *;
    if !step.Join? {
      ActorIsThere(w, step);
      InvAt(w, step.i);
    }
    if ByAnyThread(step) {
      ThreadIsNoJoin(step);
      ThreadAgrees(w, step);
    } else {
      CallerAgrees(w, step);
    }
  }

  lemma ActorIsThere(w: World, step: Step)
    requires Enabled(w, step) && !step.Expire? && !step.Join?
    ensures step.i in w.locks
  {
    hide FreshNumber, IsLowestAt, Live;
  }

  lemma StepAgrees(w: World, step: Step)
    requires Inv(w) && AllAgree(w) && AllApart(w) && Enabled(w, step) && AllApart(Apply(w, step))
    ensures AllAgree(Apply(w, step))
  {
    hide Inv, Apply, LockAfter, Agrees, Apart, Enabled;
    LocksAfterStep(w, step);
    if !step.Expire? {
      if !step.Join? {
        ActorIsThere(w, step);
      }
      assert Apart(Apply(w, step).locks[step.i]);
      ActorAgrees(w, step);
    }
  }

  lemma {:induction false} RunAgrees(w: World, steps: seq<Step>)
    requires Inv(w) && AllAgree(w) && CanRun(w, steps) && ApartRun(w, steps)
    ensures AllAgree(Run(w, steps))
    decreases |steps|
  {
    hide Inv, AllAgree, AllApart, Apply, Enabled;
    if steps != [] {
      StepAgrees(w, steps[0]);
      StepKeepsInv(w, steps[0]);
      RunAgrees(Apply(w, steps[0]), steps[1..]);
    }
  }

  /** If no watcher ever has the mutex while a Try is under way, `acquired` says whether `lockPath` is set whenever the
      mutex is free and no Try is about to store its answer. */
  lemma FlagMatchesPath(steps: seq<Step>, i: Instance)
    requires CanRun(Initial, steps) && ApartRun(Initial, steps) && At(Run(Initial, steps), i, MAIN)
    requires Run(Initial, steps).locks[i].mutex.None? && !PcOf(Run(Initial, steps), i, MAIN).Storing?
    ensures Run(Initial, steps).locks[i].acquired == Run(Initial, steps).locks[i].lockPath.Some?
  {
    RunAgrees(Initial, steps);
  }

  // ----- runs in which they do not -----

  /** Instance 0 with its caller and its first watcher, thread 1, at the given points; `n` is a node of its lock. */
  ghost predicate Scene(w: World, acquired: bool, path: Option<Node>, mutex: Option<Thread>, main: Pc, watcher: Pc) {
    && Reachable(w)
    && At(w, 0, MAIN) && At(w, 0, 1) && PcOf(w, 0, MAIN) == main && PcOf(w, 0, 1) == watcher && !At(w, 0, 2)
    && w.locks[0].acquired == acquired && w.locks[0].lockPath == path && w.locks[0].mutex == mutex
    && w.locks[0].id == "" && w.locks[0].leaked == {} && w.expired == {}
  }

  const FIRST := Node("", "", 0)
  const SECOND := Node("", "", 1)

  ghost predicate OnlyFirst(w: World, gone: bool) {
    && w.births.Keys == {FIRST} && w.deaths.Keys == (if gone then {FIRST} else {})
    && (gone ==> w.deaths[FIRST] <= w.now)
  }

  lemma Wins() returns (w: World)
    ensures Reachable(w) && At(w, 0, MAIN) && PcOf(w, 0, MAIN) == Won(FIRST) && OnlyFirst(w, false)
    ensures w.locks[0] == Lock("", "", false, None, None, map[MAIN := Won(FIRST)], {}) && w.expired == {}
  {
    hide Reachable;
    InitialReachable();
    w := ReachableStep(Initial, Join(0, "", ""));
    w := ReachableStep(w, TryStart(0, true));
    w := ReachableStep(w, Create(0, FIRST, 0));
    w := ReachableStep(w, ReadLowest(0, w.now));
  }

  lemma Stores() returns (w: World)
    ensures Reachable(w) && At(w, 0, MAIN) && PcOf(w, 0, MAIN) == Stored(true, false) && OnlyFirst(w, false)
    ensures w.locks[0] == Lock("", "", true, Some(FIRST), None, map[MAIN := Stored(true, false)], {}) && w.expired == {}
  {
    hide Reachable;
    w := Wins();
    w := ReachableStep(w, StorePath(0));
    w := ReachableStep(w, StoreFlag(0));
  }

  lemma StartsWatcher() returns (w: World)
    ensures Scene(w, true, Some(FIRST), None, Returning(true, false), Watching) && OnlyFirst(w, false)
  {
    hide Reachable;
    w := Stores();
    w := ReachableStep(w, ReadFlag(0, 1));
  }

  lemma Takes() returns (w: World)
    ensures Scene(w, true, Some(FIRST), None, Ready, Watching) && OnlyFirst(w, false)
  {
    hide Reachable;
    w := StartsWatcher();
    w := ReachableStep(w, ReturnFlag(0));
    w := ReachableStep(w, Collect(0));
  }

  /** The watcher sees a disconnect and starts to unlock. */
  lemma WatcherUnlocks() returns (w: World)
    ensures Scene(w, true, Some(FIRST), Some(1), Ready, Deleting(FIRST)) && OnlyFirst(w, false)
  {
    hide Reachable;
    w := Takes();
    w := ReachableStep(w, WatcherLeaves(0, 1, true));
    w := ReachableStep(w, WatcherDecides(0, 1, true));
    w := ReachableStep(w, TakeMutex(0, 1));
  }

  lemma PathIsRead() returns (w: World)
    ensures Scene(w, true, Some(FIRST), Some(1), Storing(true, true), Deleting(FIRST)) && OnlyFirst(w, false)
  {
    hide Reachable;
    w := WatcherUnlocks();
    w := ReachableStep(w, TryStart(0, true));
  }

  lemma PathIsErased() returns (w: World)
    ensures Scene(w, true, None, Some(1), Storing(true, true), ClearFlag)
  {
    hide Reachable;
    w := PathIsRead();
    w := ReachableStep(w, DeleteHeld(0, 1, Done));
    w := ReachableStep(w, ErasePath(0, 1));
  }

  /** The caller's Try finds the path still set; the watcher then erases path and flag; Try raises the flag again. */
  lemma FlagWithoutPath() returns (w: World)
    ensures Reachable(w) && At(w, 0, MAIN) && PcOf(w, 0, MAIN) == Returned(TryOutcome(true, true, true))
    ensures w.locks[0].acquired && w.locks[0].lockPath.None? && w.locks[0].mutex.None?
  {
    hide Reachable;
    w := PathIsErased();
    w := ReachableStep(w, EraseFlag(0, 1));
    w := ReachableStep(w, StoreFlag(0));
    w := ReachableStep(w, ReadFlag(0, 2));
    w := ReachableStep(w, ReturnFlag(0));
  }

  lemma WatcherDeletes() returns (w: World)
    ensures Scene(w, true, Some(FIRST), Some(1), Ready, ClearPath(FIRST)) && OnlyFirst(w, true)
  {
    hide Reachable;
    w := WatcherUnlocks();
    w := ReachableStep(w, DeleteHeld(0, 1, Done));
  }

  lemma WatcherErases() returns (w: World)
    ensures Scene(w, true, None, Some(1), Creating, ClearFlag) && OnlyFirst(w, true)
  {
    hide Reachable;
    w := WatcherDeletes();
    w := ReachableStep(w, ErasePath(0, 1));
    w := ReachableStep(w, TryStart(0, true));
  }

  lemma CreatesAgain() returns (w: World)
    ensures Scene(w, true, None, Some(1), Created(SECOND), ClearFlag) && IsLowestAt(w, SECOND, w.now)
    ensures w.births[SECOND].at == w.now && Live(w, SECOND)
  {
    hide Reachable;
    w := WatcherErases();
    w := ReachableStep(w, Create(0, SECOND, 0));
  }

  lemma WinsAgain() returns (w: World)
    ensures Scene(w, true, None, Some(1), Won(SECOND), ClearFlag) && Live(w, SECOND)
  {
    hide Reachable;
    w := CreatesAgain();
    w := ReachableStep(w, ReadLowest(0, w.now));
  }

  /** A Try wins while the watcher is still before its last assignment. */
  lemma StoresAgain() returns (w: World)
    ensures Scene(w, true, Some(SECOND), Some(1), Stored(true, false), ClearFlag) && Live(w, SECOND)
  {
    hide Reachable;
    w := WinsAgain();
    w := ReachableStep(w, StorePath(0));
    w := ReachableStep(w, StoreFlag(0));
  }

  /** The watcher lowers the flag before Try reads it again: Try answers false without an error and holds the lock. */
  lemma FalseButHeld() returns (w: World)
    ensures Reachable(w) && At(w, 0, MAIN) && PcOf(w, 0, MAIN) == Returned(TryOutcome(false, false, true))
    ensures Holds(w, 0) && w.locks[0].lockPath.value !in w.locks[0].leaked && !w.locks[0].acquired
  {
    hide Reachable;
    w := StoresAgain();
    w := ReachableStep(w, EraseFlag(0, 1));
    w := ReachableStep(w, ReadFlag(0, 2));
    w := ReachableStep(w, ReturnFlag(0));
  }

  /** The watcher lowers the flag after Try has returned it: the caller was told true, and the flag is down. */
  lemma PathWithoutFlag() returns (w: World)
    ensures Reachable(w) && At(w, 0, MAIN) && PcOf(w, 0, MAIN) == Returned(TryOutcome(true, false, true))
    ensures Holds(w, 0) && !w.locks[0].acquired && w.locks[0].mutex.None?
  {
    hide Reachable;
    w := StoresAgain();
    w := ReachableStep(w, ReadFlag(0, 2));
    w := ReachableStep(w, ReturnFlag(0));
    w := ReachableStep(w, EraseFlag(0, 1));
  }
}
