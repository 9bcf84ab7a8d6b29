/** The lock protocol's promises, over every run from the start. */
module LockTheorems {
  import opened Options
  import opened LockProtocol
  import opened LockSafety

  ghost predicate Reachable(w: World) {
    exists steps :: CanRun(Initial, steps) && Run(Initial, steps) == w
  }

  lemma {:induction false} RunKeepsInv(w: World, steps: seq<Step>)
    requires Inv(w) && CanRun(w, steps)
    ensures Inv(Run(w, steps))
    decreases |steps|
  {
    if steps != [] {
      StepKeepsInv(w, steps[0]);
      RunKeepsInv(Apply(w, steps[0]), steps[1..]);
    }
  }

  lemma ReachableInv(w: World)
    requires Reachable(w)
    ensures Inv(w)
  {
    var steps :| CanRun(Initial, steps) && Run(Initial, steps) == w;
    RunKeepsInv(Initial, steps);
  }

  /** Instance `i` really holds its lock: the node in `lockPath` is in the tree. */
  predicate Holds(w: World, i: Instance) {
    i in w.locks && w.locks[i].lockPath.Some? && Live(w, w.locks[i].lockPath.value)
  }

  /** At most one instance per lock id holds it, and its node has the lowest number of the directory. */
  lemma MutualExclusion(w: World, i: Instance, j: Instance)
    requires Reachable(w) && Holds(w, i) && Holds(w, j) && w.locks[i].id == w.locks[j].id
    ensures i == j
    ensures IsLowestAt(w, w.locks[i].lockPath.value, w.now)
  {
    ReachableInv(w);
    assert LockInv(w, i, w.locks[i]) && LockInv(w, j, w.locks[j]);
  }

  /** GetMember, which reports the member of the lowest child, names the holder whenever there is one. */
  lemma HolderIsReported(w: World, i: Instance, n: Node)
    requires Reachable(w) && Holds(w, i) && n.id == w.locks[i].id && IsLowestAt(w, n, w.now)
    ensures n == w.locks[i].lockPath.value && w.births[n].member == w.locks[i].member
  {
    ReachableInv(w);
    assert LockInv(w, i, w.locks[i]);
  }

  lemma WhatRemoves(w: World, step: Step, n: Node)
    requires Enabled(w, step) && Live(w, n) && !Live(TreeAfter(w, step), n)
    ensures match step
            case Expire(s) => s == w.births[n].session
            case DropLosing(i, _) => n == PcOf(w, i, MAIN).node
            case DeleteHeld(i, t, _) => n == PcOf(w, i, t).node
            case _ => false
  {
  }

  lemma DeletesOwnNode(w: World, step: Step)
    requires Inv(w) && Enabled(w, step)
    ensures match step
            case DropLosing(i, _) => Own(w, i, w.locks[i], PcOf(w, i, MAIN).node)
            case DeleteHeld(i, t, _) => Own(w, i, w.locks[i], PcOf(w, i, t).node)
            case _ => true
  {
    if step.DropLosing? || step.DeleteHeld? {
      var l := w.locks[step.i];
      assert ThreadsInv(l) && MutexInv(l) && OwnsInv(w, step.i, l);
    }
  }

  /** A node disappears only by a Delete of the instance that created it, or with its session. */
  lemma OnlyOwnersDelete(w: World, step: Step, n: Node)
    requires Reachable(w) && Enabled(w, step) && Live(w, n) && !Live(Apply(w, step), n)
    ensures step == Expire(w.births[n].session) || Actor(step, w.births[n].owner)
  {
    ReachableInv(w);
    WhatRemoves(w, step, n);
    if !step.Expire? {
      DeletesOwnNode(w, step);
    }
  }

  /** When Try returns false without an error, a node of its instance that is in the tree and was not left behind by a
      call that failed is the one in `lockPath`; there is none unless Try had won. */
  lemma CleanFalseKeepsIff(w: World, i: Instance, n: Node)
    requires Reachable(w) && At(w, i, MAIN) && PcOf(w, i, MAIN).Returned?
    requires PcOf(w, i, MAIN).outcome.TryOutcome? && !PcOf(w, i, MAIN).outcome.ok && !PcOf(w, i, MAIN).outcome.failed
    ensures Live(w, n) && w.births[n].owner == i && n !in w.locks[i].leaked <==>
      Live(w, n) && w.locks[i].lockPath == Some(n)
    ensures w.locks[i].lockPath.Some? ==> PcOf(w, i, MAIN).outcome.won
  {
    ReachableInv(w);
    assert LockInv(w, i, w.locks[i]);
  }

  /** Nodes are left behind only by a Try that then returns an error. */
  lemma LeaksAreReported(w: World, step: Step)
    requires Enabled(w, step) && !step.Expire? && !step.Join? && LockAfter(w, step).leaked != w.locks[step.i].leaked
    ensures LockAfter(w, step).threads[MAIN] == Storing(false, true)
  {
  }

  // ----- the past -----

  /** `w'` may come after `w`: births and deaths are only added, and later than now. */
  ghost predicate Later(w: World, w': World) {
    && w.now <= w'.now
    && (forall n <- w.births :: n in w'.births && w'.births[n] == w.births[n])
    && (forall n <- w'.births :: n in w.births || w'.births[n].at > w.now)
    && (forall n <- w.deaths :: n in w'.deaths && w'.deaths[n] == w.deaths[n])
    && (forall n <- w'.deaths :: n in w.deaths || w'.deaths[n] > w.now)
  }

  lemma StepIsLater(w: World, step: Step)
    requires Enabled(w, step)
    ensures Later(w, Apply(w, step))
  {
    hide LockAfter, FreshNumber, IsLowestAt;
    if step.Create? || step.CreateLost? {
      assert step.node !in w.births by { FreshIsNew(w, step); }
    }
  }

  lemma FreshIsNew(w: World, step: Step)
    requires Enabled(w, step) && (step.Create? || step.CreateLost?)
    ensures step.node !in w.births
  {
    assert FreshNumber(w, step.node);
  }

  lemma {:induction false} RunIsLater(w: World, steps: seq<Step>)
    requires CanRun(w, steps)
    ensures Later(w, Run(w, steps))
    decreases |steps|
  {
    hide Enabled, Apply;
    if steps != [] {
      StepIsLater(w, steps[0]);
      RunIsLater(Apply(w, steps[0]), steps[1..]);
    }
  }

  /** Nothing that happens later changes what was in the tree at a past time. */
  lemma PastStays(w: World, w': World, n: Node, k: nat)
    requires Later(w, w') && k <= w.now
    ensures IsLowestAt(w', n, k) <==> IsLowestAt(w, n, k)
  {
    forall m: Node
      ensures LiveAt(w', m, k) <==> LiveAt(w, m, k)
    {
    }
    assert forall m <- w.births :: m in w'.births;
    assert forall m <- w'.births :: LiveAt(w', m, k) ==> m in w.births;
  }

  // ----- a lock that is lost -----

  /** The node of `lockPath` is gone and no Unlock has been told that it removed it. */
  ghost predicate Lost(w: World, i: Instance, n: Node) {
    && i in w.locks && n in w.deaths && w.locks[i].lockPath == Some(n)
    && forall t <- w.locks[i].threads :: !w.locks[i].threads[t].ClearPath?
  }

  /** No Unlock is about to lower the flag. */
  ghost predicate NoEraser(l: Lock) {
    forall t <- l.threads :: !l.threads[t].ClearFlag?
  }

  lemma ExpiryLosesLock(w: World, i: Instance)
    requires Reachable(w) && Holds(w, i)
    ensures Lost(Apply(w, Expire(w.births[w.locks[i].lockPath.value].session)), i, w.locks[i].lockPath.value)
  {
    ReachableInv(w);
    hide Reachable, Inv;
    InvAt(w, i);
  }

  lemma LostActor(w: World, step: Step, n: Node)
    requires Enabled(w, step) && !step.Expire? && !step.Join? && n in w.deaths && Lost(w, step.i, n)
    requires ThreadsInv(w.locks[step.i]) && MutexInv(w.locks[step.i])
    ensures LockAfter(w, step).lockPath == Some(n)
    ensures forall t <- LockAfter(w, step).threads :: !LockAfter(w, step).threads[t].ClearPath?
    ensures NoEraser(w.locks[step.i]) ==> NoEraser(LockAfter(w, step))
  {
  }

  lemma StepKeepsLost(w: World, step: Step, i: Instance, n: Node)
    requires Lost(w, i, n) && ThreadsInv(w.locks[i]) && MutexInv(w.locks[i]) && Enabled(w, step)
    ensures Lost(Apply(w, step), i, n)
    ensures NoEraser(w.locks[i]) ==> NoEraser(Apply(w, step).locks[i])
  {
    TreeStepGrows(w, step);
    if Actor(step, i) {
      LostActor(w, step, n);
    }
  }

  /** A lost lock stays lost: in every later state `lockPath` is set and try answers (true, ErrDeadlock).  Once an Unlock
      that may have been under way is over, no other one ever lowers the flag again, so Try returns just that. */
  lemma {:induction false} LostForever(w: World, steps: seq<Step>, i: Instance, n: Node)
    requires Inv(w) && Lost(w, i, n) && CanRun(w, steps)
    ensures Lost(Run(w, steps), i, n) && !Holds(Run(w, steps), i)
    ensures Enabled(Run(w, steps), TryStart(i, true)) ==>
              LockAfter(Run(w, steps), TryStart(i, true)).threads[MAIN] == Storing(true, true)
    ensures NoEraser(w.locks[i]) ==> forall t :: !Enabled(Run(w, steps), EraseFlag(i, t))
    decreases |steps|
  {
    hide Inv, Enabled, Apply, LockAfter, Holds, NoEraser, ThreadsInv, MutexInv;
    if steps == [] {
      LostMeans(w, i, n);
    } else {
      InvAt(w, i);
      StepKeepsInv(w, steps[0]);
      StepKeepsLost(w, steps[0], i, n);
      LostForever(Apply(w, steps[0]), steps[1..], i, n);
    }
  }

  lemma LostMeans(w: World, i: Instance, n: Node)
    requires Lost(w, i, n)
    ensures i in w.locks && !Holds(w, i)
    ensures Enabled(w, TryStart(i, true)) ==> LockAfter(w, TryStart(i, true)).threads[MAIN] == Storing(true, true)
    ensures NoEraser(w.locks[i]) ==> forall t :: !Enabled(w, EraseFlag(i, t))
  {
  }

  // ----- runs step by step -----

  lemma ReachableStep(w: World, step: Step) returns (w': World)
    requires Reachable(w) && Enabled(w, step)
    ensures w' == Apply(w, step) && Reachable(w')
  {
    var steps :| CanRun(Initial, steps) && Run(Initial, steps) == w;
    RunAppend(Initial, steps, [step]);
    w' := Apply(w, step);
    assert CanRun(Initial, steps + [step]) && Run(Initial, steps + [step]) == w';
  }

  lemma InitialReachable()
    ensures Reachable(Initial)
  {
    assert CanRun(Initial, []) && Run(Initial, []) == Initial;
  }
}
