/** What every run of the lock protocol keeps. */
module LockSafety {
  import opened Options
  import opened LockProtocol

  // ----- the tree -----

  ghost predicate Timely(w: World) {
    && (forall n <- w.births :: w.births[n].at <= w.now && w.births[n].owner in w.locks)
    && (forall n <- w.deaths :: n in w.births && w.births[n].at < w.deaths[n] <= w.now)
  }

  lemma CallerAccounted(w: World, step: Step, n: Node)
    requires Enabled(w, step) && !step.Expire? && !ByAnyThread(step) && !step.Join? && Live(TreeAfter(w, step), n)
    requires ThreadsInv(w.locks[step.i]) && MutexInv(w.locks[step.i]) && ErasedInv(TreeAfter(w, step), w.locks[step.i])
    requires Accounted(w.locks[step.i], n) || Planted(step) == Some(n)
    ensures MAIN in LockAfter(w, step).threads && Accounted(LockAfter(w, step), n)
  {
  }

  lemma AnyAccounted(w: World, step: Step, n: Node)
    requires Enabled(w, step) && ByAnyThread(step) && Live(TreeAfter(w, step), n)
    requires ThreadsInv(w.locks[step.i]) && MutexInv(w.locks[step.i]) && ErasedInv(TreeAfter(w, step), w.locks[step.i])
    requires Accounted(w.locks[step.i], n) || Planted(step) == Some(n)
    ensures MAIN in LockAfter(w, step).threads && Accounted(LockAfter(w, step), n)
  {
  }

  /** In one directory the numbers follow the order of the births. */
  ghost predicate Ordered(w: World) {
    forall n <- w.births, m <- w.births :: n.id == m.id && n.number <= m.number ==>
      n == m || w.births[n].at < w.births[m].at
  }

  ghost predicate SessionsAlive(w: World) {
    forall n <- w.births :: Live(w, n) ==> w.births[n].session !in w.expired
  }

  ghost predicate TreeInv(w: World) {
    Timely(w) && Ordered(w) && SessionsAlive(w)
  }

  lemma PlantKeepsTree(w: World, i: Instance, n: Node, s: Session)
    requires TreeInv(w) && CanCreate(w, i, n, s)
    ensures TreeInv(Plant(w, i, n, s))
  {
    var w' := Plant(w, i, n, s);
    assert Timely(w');
    assert Ordered(w');
    assert SessionsAlive(w');
  }

  lemma PruneKeepsTree(w: World, gone: set<Node>)
    requires TreeInv(w) && forall n <- gone :: Live(w, n)
    ensures TreeInv(Prune(w, gone))
  {
    var w' := Prune(w, gone);
    assert Timely(w');
    assert Ordered(w');
    assert SessionsAlive(w');
  }

  lemma StepKeepsTree(w: World, step: Step)
    requires TreeInv(w) && Enabled(w, step)
    ensures TreeInv(TreeAfter(w, step))
  {
    match step {
      case Create(i, n, s) => PlantKeepsTree(w, i, n, s);
      case CreateLost(i, n, s) => PlantKeepsTree(w, i, n, s);
      case DropLosing(i, r) => if !r.Refused? { PruneKeepsTree(w, {PcOf(w, i, MAIN).node}); }
      case DeleteHeld(i, t, r) => if !r.Refused? { PruneKeepsTree(w, {PcOf(w, i, t).node}); }
      case Expire(s) => ExpireKeepsTree(w, s);
      case _ =>
    }
  }

  lemma ExpireKeepsTree(w: World, s: Session)
    requires TreeInv(w)
    ensures TreeInv(Prune(w, Expiring(w, s)).(expired := w.expired + {s}))
  {
    PruneKeepsTree(w, Expiring(w, s));
  }

  /** Whoever was lowest at any time since its birth has nobody below it now either. */
  lemma StaleReadStillLowest(w: World, n: Node, k: nat)
    requires TreeInv(w) && k <= w.now && IsLowestAt(w, n, k)
    ensures NoneBelow(w, n)
  {
    forall m <- w.births | Live(w, m) && m.id == n.id
      ensures n.number <= m.number
    {
      assert m.number < n.number ==> LiveAt(w, m, k);
    }
  }

  /** A step changes no record but that of the instance that takes it. */
  lemma LocksAfterStep(w: World, step: Step)
    requires Enabled(w, step)
    ensures Apply(w, step).locks == if step.Expire? then w.locks else w.locks[step.i := LockAfter(w, step)]
  {
    hide LockAfter;
  }

  // ----- the goroutines of one lock instance -----

  /** The node that the caller of Try is working on, or has just won. */
  function InHand(pc: Pc): Option<Node> {
    match pc
    case Created(n) => Some(n)
    case Won(n) => Some(n)
    case Losing(n, _) => Some(n)
    case _ => None
  }

  predicate HoldsMutex(pc: Pc) {
    pc.Deleting? || pc.ClearPath? || pc.ClearFlag?
  }

  predicate IsWatcher(pc: Pc) {
    pc.Watching? || pc.Leaving? || pc.Finished?
  }

  predicate IsCaller(pc: Pc) {
    !IsWatcher(pc) && !pc.WantMutex? && !HoldsMutex(pc)
  }

  predicate InTry(pc: Pc) {
    pc.Creating? || InHand(pc).Some?
  }

  /** Try stores its answer in the flag, and returns the flag. */
  predicate Answering(pc: Pc) {
    pc.Storing? || pc.Stored? || pc.Returning?
  }

  /** Try has found that it does not get the lock. */
  predicate Failed(pc: Pc) {
    pc == Returned(TryOutcome(false, false, false)) || (Answering(pc) && !pc.ok)
  }

  /** A call of Try is under way. */
  predicate TryUnderWay(pc: Pc) {
    InTry(pc) || Answering(pc)
  }

  ghost predicate ThreadsInv(l: Lock) {
    && MAIN in l.threads && !IsWatcher(l.threads[MAIN])
    && (InTry(l.threads[MAIN]) || Failed(l.threads[MAIN]) || l.threads[MAIN].ClearFlag? ==> l.lockPath == None)
    && (forall t <- l.threads :: t != MAIN ==> !IsCaller(l.threads[t]))
  }

  /** The flag is up only by a try that won. */
  ghost predicate FlagInv(l: Lock)
    requires MAIN in l.threads
  {
    match l.threads[MAIN]
    case Stored(ok, _) => l.acquired ==> ok
    case Returning(ok, _) => l.acquired ==> ok
    case Returned(TryOutcome(ok, _, won)) => ok ==> won
    case _ => true
  }

  /** Whoever deletes the held node is alone in doing so, and the node is still the one in `lockPath`. */
  ghost predicate MutexInv(l: Lock) {
    && (l.mutex.Some? ==> l.mutex.value in l.threads)
    && (forall t <- l.threads :: HoldsMutex(l.threads[t]) <==> l.mutex == Some(t))
    && (forall t <- l.threads :: l.threads[t].Deleting? || l.threads[t].ClearPath? ==>
          l.lockPath == Some(l.threads[t].node))
  }

  /** `n` was created by instance `i` for the lock `l`. */
  ghost predicate Own(w: World, i: Instance, l: Lock, n: Node) {
    n in w.births && w.births[n].owner == i && n.id == l.id && w.births[n].member == l.member
  }

  ghost predicate OwnsInv(w: World, i: Instance, l: Lock)
    requires MAIN in l.threads
  {
    && (InHand(l.threads[MAIN]).Some? ==> Own(w, i, l, InHand(l.threads[MAIN]).value))
    && (l.lockPath.Some? ==> Own(w, i, l, l.lockPath.value))
  }

  ghost predicate LowestInv(w: World, l: Lock)
    requires MAIN in l.threads
  {
    && (l.threads[MAIN].Won? ==> NoneBelow(w, l.threads[MAIN].node))
    && (l.lockPath.Some? ==> NoneBelow(w, l.lockPath.value))
  }

  ghost predicate ErasedInv(w: World, l: Lock) {
    forall t <- l.threads :: l.threads[t].ClearPath? ==> !Live(w, l.threads[t].node)
  }

  predicate Accounted(l: Lock, n: Node)
    requires MAIN in l.threads
  {
    n in l.leaked || l.lockPath == Some(n) || InHand(l.threads[MAIN]) == Some(n)
  }

  /** What was left behind is neither held nor in the hands of Try. */
  ghost predicate LeaksInv(w: World, l: Lock)
    requires MAIN in l.threads
  {
    && (forall n <- l.leaked :: n in w.births)
    && (l.lockPath.Some? ==> l.lockPath.value !in l.leaked)
    && (InHand(l.threads[MAIN]).Some? ==> InHand(l.threads[MAIN]).value !in l.leaked)
  }

  /** Every live node is held, in the hands of Try, or was left behind by a call that returned an error. */
  ghost predicate AccountedInv(w: World, i: Instance, l: Lock)
    requires MAIN in l.threads
  {
    forall n <- w.births :: Live(w, n) && w.births[n].owner == i ==> Accounted(l, n)
  }

  ghost predicate LockInv(w: World, i: Instance, l: Lock) {
    && ThreadsInv(l) && MutexInv(l) && OwnsInv(w, i, l) && LowestInv(w, l) && ErasedInv(w, l) && AccountedInv(w, i, l)
    && FlagInv(l) && LeaksInv(w, l)
  }

  ghost predicate Inv(w: World) {
    TreeInv(w) && forall i <- w.locks :: LockInv(w, i, w.locks[i])
  }

  lemma InvAt(w: World, i: Instance)
    requires Inv(w) && i in w.locks
    ensures var l := w.locks[i];
            && ThreadsInv(l) && MutexInv(l) && OwnsInv(w, i, l) && LowestInv(w, l) && ErasedInv(w, l)
            && (l.lockPath.Some? ==> Own(w, i, l, l.lockPath.value)) && FlagInv(l) && LeaksInv(w, l)
  {
    assert LockInv(w, i, w.locks[i]);
  }

  // ----- what a step does to the tree leaves every instance's record in order -----

  /** What a change of the tree may do: nodes are not forgotten or revived, and new ones get fresh numbers. */
  ghost predicate Grows(w: World, w': World) {
    && (forall n <- w.births :: n in w'.births && w'.births[n] == w.births[n])
    && (forall n <- w.deaths :: n in w'.deaths)
    && (forall n <- w'.births :: n in w.births || FreshNumber(w, n))
  }

  lemma TreeStepGrows(w: World, step: Step)
    requires Enabled(w, step)
    ensures Grows(w, TreeAfter(w, step))
  {
  }

  lemma GrowthKeepsHeld(w: World, w': World, i: Instance, l: Lock)
    requires Grows(w, w') && MAIN in l.threads && OwnsInv(w, i, l) && LowestInv(w, l)
    ensures OwnsInv(w', i, l) && LowestInv(w', l)
  {
  }

  lemma GrowthKeepsErased(w: World, w': World, l: Lock)
    requires Grows(w, w') && ErasedInv(w, l)
    requires forall t <- l.threads :: l.threads[t].ClearPath? ==> l.threads[t].node in w.births
    ensures ErasedInv(w', l)
  {
  }

  predicate Actor(step: Step, i: Instance) {
    !step.Expire? && step.i == i
  }

  /** The node a step plants, if any. */
  function Planted(step: Step): Option<Node> {
    if step.Create? || step.CreateLost? then Some(step.node) else None
  }

  lemma TreeStepAccounts(w: World, step: Step, i: Instance, l: Lock)
    requires Enabled(w, step) && MAIN in l.threads && AccountedInv(w, i, l)
    ensures forall n <- TreeAfter(w, step).births ::
              Live(TreeAfter(w, step), n) && TreeAfter(w, step).births[n].owner == i ==>
                Accounted(l, n) || (Actor(step, i) && Planted(step) == Some(n))
  {
  }

  lemma OthersKeepLock(w: World, step: Step, i: Instance)
    requires Inv(w) && Enabled(w, step) && !Actor(step, i) && i in w.locks
    ensures LockInv(TreeAfter(w, step), i, w.locks[i])
  {
    TreeStepGrows(w, step);
    GrowthKeepsHeld(w, TreeAfter(w, step), i, w.locks[i]);
    GrowthKeepsErased(w, TreeAfter(w, step), w.locks[i]);
    TreeStepAccounts(w, step, i, w.locks[i]);
    GrowthKeepsLeaks(w, TreeAfter(w, step), w.locks[i]);
  }

  lemma GrowthKeepsLeaks(w: World, w': World, l: Lock)
    requires Grows(w, w') && MAIN in l.threads && LeaksInv(w, l)
    ensures LeaksInv(w', l)
  {
  }

  // ----- an instance's own steps -----

  /** The steps that any goroutine of an instance may take; the others are its caller's. */
  predicate ByAnyThread(step: Step) {
    || step.TakeMutex? || step.DeleteHeld? || step.ErasePath? || step.EraseFlag?
    || step.WatcherLeaves? || step.WatcherDecides?
  }

  lemma ThreadIsNoJoin(step: Step)
    requires ByAnyThread(step)
    ensures !step.Join? && !step.Expire?
  {
  }

  lemma CallerThreads(w: World, step: Step)
    requires Enabled(w, step) && !step.Expire? && !ByAnyThread(step) && (step.Join? || ThreadsInv(w.locks[step.i]))
    ensures ThreadsInv(LockAfter(w, step))
  {
    hide FreshNumber, IsLowestAt, Live;
  }

  lemma AnyThreads(w: World, step: Step)
    requires Enabled(w, step) && ByAnyThread(step) && ThreadsInv(w.locks[step.i])
    ensures ThreadsInv(LockAfter(w, step))
  {
    hide FreshNumber, IsLowestAt, Live;
  }

  lemma CallerMutex(w: World, step: Step)
    requires Enabled(w, step) && !step.Expire? && !ByAnyThread(step)
    requires step.Join? || (ThreadsInv(w.locks[step.i]) && MutexInv(w.locks[step.i]))
    ensures MutexInv(LockAfter(w, step))
  {
    hide FreshNumber, IsLowestAt, Live;
  }

  lemma AnyMutex(w: World, step: Step)
    requires Enabled(w, step) && ByAnyThread(step) && ThreadsInv(w.locks[step.i]) && MutexInv(w.locks[step.i])
    ensures MutexInv(LockAfter(w, step))
  {
    hide FreshNumber, IsLowestAt, Live;
  }

  lemma ActorThreads(w: World, step: Step)
    requires Enabled(w, step) && !step.Expire? && (step.Join? || ThreadsInv(w.locks[step.i]))
    ensures ThreadsInv(LockAfter(w, step))
  {
    hide LockAfter, ThreadsInv;
    if ByAnyThread(step) { AnyThreads(w, step); } else { CallerThreads(w, step); }
  }

  lemma ActorMutex(w: World, step: Step)
    requires Enabled(w, step) && !step.Expire?
    requires step.Join? || (ThreadsInv(w.locks[step.i]) && MutexInv(w.locks[step.i]))
    ensures MutexInv(LockAfter(w, step))
  {
    hide LockAfter, ThreadsInv, MutexInv;
    if ByAnyThread(step) { AnyMutex(w, step); } else { CallerMutex(w, step); }
  }

  lemma CallerOwns(w: World, w': World, step: Step)
    requires Enabled(w, step) && !step.Expire? && !ByAnyThread(step) && w' == TreeAfter(w, step)
    requires !step.Join? ==> ThreadsInv(w.locks[step.i]) && OwnsInv(w', step.i, w.locks[step.i])
    ensures MAIN in LockAfter(w, step).threads && OwnsInv(w', step.i, LockAfter(w, step))
  {
    hide FreshNumber, IsLowestAt, Live;
  }

  lemma AnyOwns(w: World, w': World, step: Step)
    requires Enabled(w, step) && ByAnyThread(step)
    requires ThreadsInv(w.locks[step.i]) && OwnsInv(w', step.i, w.locks[step.i])
    ensures MAIN in LockAfter(w, step).threads && OwnsInv(w', step.i, LockAfter(w, step))
  {
    hide FreshNumber, IsLowestAt, NoneBelow, Live;
  }

  lemma ActorOwns(w: World, w': World, step: Step)
    requires Enabled(w, step) && !step.Expire? && w' == TreeAfter(w, step)
    requires !step.Join? ==> ThreadsInv(w.locks[step.i]) && OwnsInv(w', step.i, w.locks[step.i])
    ensures MAIN in LockAfter(w, step).threads && OwnsInv(w', step.i, LockAfter(w, step))
  {
    hide *;
    if ByAnyThread(step) { ThreadIsNoJoin(step); AnyOwns(w, w', step); } else { CallerOwns(w, w', step); }
  }

  lemma CallerLowest(w: World, w': World, step: Step)
    requires TreeInv(w) && Enabled(w, step) && !step.Expire? && !ByAnyThread(step) && w' == TreeAfter(w, step)
    requires !step.Join? ==> ThreadsInv(w.locks[step.i]) && LowestInv(w', w.locks[step.i])
    ensures MAIN in LockAfter(w, step).threads && LowestInv(w', LockAfter(w, step))
  {
    hide FreshNumber;
    if step.ReadLowest? && IsLowestAt(w, PcOf(w, step.i, MAIN).node, step.k) {
      StaleReadStillLowest(w, PcOf(w, step.i, MAIN).node, step.k);
    }
  }

  lemma AnyLowest(w: World, w': World, step: Step)
    requires Enabled(w, step) && ByAnyThread(step)
    requires ThreadsInv(w.locks[step.i]) && LowestInv(w', w.locks[step.i])
    ensures MAIN in LockAfter(w, step).threads && LowestInv(w', LockAfter(w, step))
  {
    hide FreshNumber, IsLowestAt, NoneBelow, Live;
  }

  lemma ActorLowest(w: World, w': World, step: Step)
    requires TreeInv(w) && Enabled(w, step) && !step.Expire? && w' == TreeAfter(w, step)
    requires !step.Join? ==> ThreadsInv(w.locks[step.i]) && LowestInv(w', w.locks[step.i])
    ensures MAIN in LockAfter(w, step).threads && LowestInv(w', LockAfter(w, step))
  {
    hide *;
    if ByAnyThread(step) { ThreadIsNoJoin(step); AnyLowest(w, w', step); } else { CallerLowest(w, w', step); }
  }

  lemma ActorErased(w: World, w': World, step: Step)
    requires Enabled(w, step) && !step.Expire? && w' == TreeAfter(w, step)
    requires !step.Join? ==> ErasedInv(w', w.locks[step.i])
    ensures ErasedInv(w', LockAfter(w, step))
  {
    hide FreshNumber, IsLowestAt;
  }

  lemma ActorFlag(w: World, step: Step)
    requires Enabled(w, step) && !step.Expire?
    requires step.Join? || (ThreadsInv(w.locks[step.i]) && FlagInv(w.locks[step.i]))
    ensures MAIN in LockAfter(w, step).threads && FlagInv(LockAfter(w, step))
  {
    hide FreshNumber, IsLowestAt, Live;
  }

  lemma CallerLeaks(w: World, w': World, step: Step)
    requires Enabled(w, step) && !step.Expire? && !ByAnyThread(step) && w' == TreeAfter(w, step)
    requires !step.Join? ==>
      && ThreadsInv(w.locks[step.i]) && LeaksInv(w, w.locks[step.i]) && LeaksInv(w', w.locks[step.i])
      && OwnsInv(w, step.i, w.locks[step.i])
    ensures MAIN in LockAfter(w, step).threads && LeaksInv(w', LockAfter(w, step))
  {
    hide IsLowestAt, Live;
  }

  lemma AnyLeaks(w: World, w': World, step: Step)
    requires Enabled(w, step) && ByAnyThread(step) && ThreadsInv(w.locks[step.i]) && LeaksInv(w', w.locks[step.i])
    ensures MAIN in LockAfter(w, step).threads && LeaksInv(w', LockAfter(w, step))
  {
    hide FreshNumber, IsLowestAt, Live;
  }

  lemma ActorLeaks(w: World, w': World, step: Step)
    requires Enabled(w, step) && !step.Expire? && w' == TreeAfter(w, step)
    requires !step.Join? ==>
      && ThreadsInv(w.locks[step.i]) && LeaksInv(w, w.locks[step.i]) && LeaksInv(w', w.locks[step.i])
      && OwnsInv(w, step.i, w.locks[step.i])
    ensures MAIN in LockAfter(w, step).threads && LeaksInv(w', LockAfter(w, step))
  {
    hide *;
    if ByAnyThread(step) { ThreadIsNoJoin(step); AnyLeaks(w, w', step); } else { CallerLeaks(w, w', step); }
  }

  /** A step lets go of a node only by putting it down as leaked or after it is gone. */
  lemma ActorAccounted(w: World, step: Step, n: Node)
    requires Enabled(w, step) && !step.Expire? && !step.Join? && Live(TreeAfter(w, step), n)
    requires ThreadsInv(w.locks[step.i]) && MutexInv(w.locks[step.i]) && ErasedInv(TreeAfter(w, step), w.locks[step.i])
    requires Accounted(w.locks[step.i], n) || Planted(step) == Some(n)
    ensures MAIN in LockAfter(w, step).threads && Accounted(LockAfter(w, step), n)
  {
    hide *;
    if ByAnyThread(step) { ThreadIsNoJoin(step); AnyAccounted(w, step, n); } else { CallerAccounted(w, step, n); }
  }

  lemma ActorKeepsLock(w: World, step: Step)
    requires Inv(w) && Enabled(w, step) && !step.Expire?
    ensures LockInv(TreeAfter(w, step), step.i, LockAfter(w, step))
  {
    var w', i := TreeAfter(w, step), step.i;
    ActorThreads(w, step);
    ActorMutex(w, step);
    ActorFlag(w, step);
    if !step.Join? {
      var l := w.locks[i];
      TreeStepGrows(w, step);
      GrowthKeepsLeaks(w, w', l);
      GrowthKeepsHeld(w, w', i, l);
      GrowthKeepsErased(w, w', l);
      TreeStepAccounts(w, step, i, l);
      forall n <- w'.births | Live(w', n) && w'.births[n].owner == i
        ensures Accounted(LockAfter(w, step), n)
      {
        ActorAccounted(w, step, n);
      }
    }
    ActorOwns(w, w', step);
    ActorLowest(w, w', step);
    ActorErased(w, w', step);
    ActorLeaks(w, w', step);
  }

  lemma TreeDecidesLockInv(w: World, w': World, i: Instance, l: Lock)
    requires w'.births == w.births && w'.deaths == w.deaths
    ensures LockInv(w', i, l) == LockInv(w, i, l)
  {
  }

  lemma StepKeepsLock(w: World, step: Step, i: Instance)
    requires Inv(w) && Enabled(w, step) && i in Apply(w, step).locks
    ensures LockInv(Apply(w, step), i, Apply(w, step).locks[i])
  {
    if Actor(step, i) {
      ActorKeepsLock(w, step);
    } else {
      OthersKeepLock(w, step, i);
    }
    TreeDecidesLockInv(TreeAfter(w, step), Apply(w, step), i, Apply(w, step).locks[i]);
  }

  lemma StepKeepsInv(w: World, step: Step)
    requires Inv(w) && Enabled(w, step)
    ensures Inv(Apply(w, step))
  {
    StepKeepsTree(w, step);
    forall i <- Apply(w, step).locks
      ensures LockInv(Apply(w, step), i, Apply(w, step).locks[i])
    {
      StepKeepsLock(w, step, i);
    }
  }
}
