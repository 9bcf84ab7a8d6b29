/** The Zookeeper lock does what the reference implementation does, one atomic registry operation at a time. */
module LockRefinement {
  import opened Options
  import opened LockProtocol
  import opened LockSafety
  import opened LockTheorems
  import opened LocalLock

  /** No two instances hold the lock of the same id. */
  ghost predicate UniqueHolders(w: World) {
    forall i, j :: Holds(w, i) && Holds(w, j) && w.locks[i].id == w.locks[j].id ==> i == j
  }

  lemma HoldersAreUnique(w: World)
    requires Inv(w)
    ensures UniqueHolders(w)
  {
    forall i, j | Holds(w, i) && Holds(w, j) && w.locks[i].id == w.locks[j].id
      ensures i == j
    {
      assert LockInv(w, i, w.locks[i]) && LockInv(w, j, w.locks[j]);
    }
  }

  /** `r` is the reference registry that a state of the Zookeeper lock stands for. */
  ghost predicate Represents(w: World, r: Entries) {
    && (forall i <- w.locks :: Holds(w, i) ==> w.locks[i].id in r && r[w.locks[i].id] == w.locks[i].member)
    && (forall id <- r :: exists i <- w.locks :: Holds(w, i) && w.locks[i].id == id)
  }

  /** The ids whose holders lose their node with session `s`. */
  function Released(w: World, s: Session): set<string> {
    set i <- w.locks | Holds(w, i) && w.births[w.locks[i].lockPath.value].session == s :: w.locks[i].id
  }

  /** Who holds a lock after a step, in terms of who held it before. */
  predicate HoldsNext(w: World, step: Step, i: Instance)
    requires Enabled(w, step)
  {
    match step
    case StorePath(a) => if a == i then Live(w, PcOf(w, a, MAIN).node) else Holds(w, i)
    case DeleteHeld(a, _, r) => Holds(w, i) && (a != i || r.Refused?)
    case Expire(s) => Holds(w, i) && w.births[w.locks[i].lockPath.value].session != s
    case _ => Holds(w, i)
  }

  lemma PathAfter(w: World, step: Step)
    requires Enabled(w, step) && !step.Expire? && !step.Join?
    ensures LockAfter(w, step).id == w.locks[step.i].id && LockAfter(w, step).member == w.locks[step.i].member
    ensures LockAfter(w, step).lockPath ==
      match step
      case StorePath(i) => Some(PcOf(w, i, MAIN).node)
      case ErasePath(_, _) => None
      case _ => w.locks[step.i].lockPath
  {
  }

  /** A known node stays as it is unless the step removes it. */
  lemma LiveAfter(w: World, step: Step, n: Node)
    requires Enabled(w, step) && n in w.births
    ensures Live(TreeAfter(w, step), n) <==>
      Live(w, n) &&
      match step
      case Expire(s) => s != w.births[n].session
      case DropLosing(i, r) => r.Refused? || n != PcOf(w, i, MAIN).node
      case DeleteHeld(i, t, r) => r.Refused? || n != PcOf(w, i, t).node
      case _ => true
  {
  }

  lemma OthersHold(w: World, step: Step, i: Instance)
    requires Enabled(w, step) && !Actor(step, i) && i in w.locks
    requires w.locks[i].lockPath.Some? ==> Own(w, i, w.locks[i], w.locks[i].lockPath.value)
    requires step.DropLosing? ==> Own(w, step.i, w.locks[step.i], PcOf(w, step.i, MAIN).node)
    requires step.DeleteHeld? ==> Own(w, step.i, w.locks[step.i], PcOf(w, step.i, step.t).node)
    ensures Holds(Apply(w, step), i) <==> HoldsNext(w, step, i)
  {
    if w.locks[i].lockPath.Some? {
      LiveAfter(w, step, w.locks[i].lockPath.value);
    }
  }

  lemma ActorHolds(w: World, step: Step)
    requires Enabled(w, step) && !step.Expire? && !step.Join?
    requires ThreadsInv(w.locks[step.i]) && MutexInv(w.locks[step.i])
    requires OwnsInv(w, step.i, w.locks[step.i]) && ErasedInv(w, w.locks[step.i])
    ensures Holds(Apply(w, step), step.i) <==> HoldsNext(w, step, step.i)
  {
    PathAfter(w, step);
    if LockAfter(w, step).lockPath.Some? {
      LiveAfter(w, step, LockAfter(w, step).lockPath.value);
    }
  }

  lemma NamesAfter(w: World, step: Step, i: Instance)
    requires Enabled(w, step) && i in w.locks
    ensures i in Apply(w, step).locks
    ensures Apply(w, step).locks[i].id == w.locks[i].id && Apply(w, step).locks[i].member == w.locks[i].member
  {
    assert Actor(step, i) ==> !step.Join?;
    LocksAfterStep(w, step);
    hide Apply, LockAfter, TreeAfter, Enabled;
    if Actor(step, i) {
      PathAfter(w, step);
    }
  }

  lemma HoldsAfter(w: World, step: Step, i: Instance)
    requires Inv(w) && Enabled(w, step) && i in Apply(w, step).locks
    ensures Holds(Apply(w, step), i) <==> HoldsNext(w, step, i)
  {
    hide *;
    WasThere(w, step, i);
    if !step.Expire? && step.i == i {
      if step.Join? {
        JoinHolds(w, step);
      } else {
        InvAt(w, i);
        ActorHolds(w, step);
      }
    } else {
      InvAt(w, i);
      DeletesOwnNode(w, step);
      NotActor(step, i);
      OthersHold(w, step, i);
    }
  }

  lemma WasThere(w: World, step: Step, i: Instance)
    requires Enabled(w, step) && i in Apply(w, step).locks
    ensures step.Expire? || step.i != i || !step.Join? ==> i in w.locks
  {
    LocksAfterStep(w, step);
    hide Apply, LockAfter;
  }

  lemma NotActor(step: Step, i: Instance)
    requires step.Expire? || step.i != i
    ensures !Actor(step, i)
  {
  }

  lemma JoinHolds(w: World, step: Step)
    requires Enabled(w, step) && step.Join?
    ensures !Holds(Apply(w, step), step.i) && !HoldsNext(w, step, step.i)
  {
  }

  /** What the step does to a reference registry `r`. */
  function RegistryNext(w: World, step: Step, r: Entries): Entries
    requires Enabled(w, step)
  {
    match step
    case StorePath(i) =>
      if Live(w, PcOf(w, i, MAIN).node) then Tried(r, w.locks[i].id, w.locks[i].member) else r
    case DeleteHeld(i, _, reply) => if reply.Refused? then r else Unlocked(r, w.locks[i].id)
    case Expire(s) => r - Released(w, s)
    case _ => r
  }

  /** Nobody holds the lock at the moment when an instance, whose node is still there, stores its path. */
  lemma StoreFindsItFree(w: World, i: Instance, j: Instance)
    requires i in w.locks && j in w.locks && LockInv(w, i, w.locks[i]) && LockInv(w, j, w.locks[j]) && Ordered(w)
    requires Enabled(w, StorePath(i)) && Live(w, PcOf(w, i, MAIN).node) && w.locks[i].id == w.locks[j].id
    ensures !Holds(w, j)
  {
  }

  lemma StorerIsFirst(w: World, i: Instance)
    requires Inv(w) && Enabled(w, StorePath(i))
    ensures !Holds(w, i)
    ensures Live(w, PcOf(w, i, MAIN).node) ==> forall j <- w.locks :: w.locks[j].id == w.locks[i].id ==> !Holds(w, j)
  {
    assert LockInv(w, i, w.locks[i]);
    forall j <- w.locks | Live(w, PcOf(w, i, MAIN).node) && w.locks[j].id == w.locks[i].id
      ensures !Holds(w, j)
    {
      hide LockInv;
      StoreFindsItFree(w, i, j);
    }
  }

  /** Whoever deletes the node in `lockPath` held the lock. */
  lemma DeleterHolds(w: World, step: Step)
    requires Inv(w) && Enabled(w, step) && step.DeleteHeld? && !step.reply.Refused?
    ensures Holds(w, step.i)
  {
    assert LockInv(w, step.i, w.locks[step.i]);
  }

  ghost predicate SameNames(w: World, w': World) {
    forall i <- w.locks :: i in w'.locks && w'.locks[i].id == w.locks[i].id && w'.locks[i].member == w.locks[i].member
  }

  lemma RepresentsFewer(w: World, w': World, r: Entries, gone: set<string>)
    requires Represents(w, r) && SameNames(w, w')
    requires forall i <- w'.locks :: Holds(w', i) <==> Holds(w, i) && w.locks[i].id !in gone
    ensures Represents(w', r - gone)
  {
  }

  lemma RepresentsMore(w: World, w': World, r: Entries, i: Instance)
    requires Represents(w, r) && SameNames(w, w') && i in w.locks && w.locks[i].id !in r
    requires forall j <- w'.locks :: Holds(w', j) <==> Holds(w, j) || j == i
    ensures Represents(w', Tried(r, w.locks[i].id, w.locks[i].member))
  {
    forall id <- r
      ensures exists j <- w'.locks :: Holds(w', j) && w'.locks[j].id == id
    {
      var j :| j in w.locks && Holds(w, j) && w.locks[j].id == id;
      assert Holds(w', j);
    }
  }

  lemma StepHolding(w: World, step: Step)
    requires Inv(w) && Enabled(w, step)
    ensures SameNames(w, Apply(w, step))
    ensures forall i <- Apply(w, step).locks :: Holds(Apply(w, step), i) <==> HoldsNext(w, step, i)
  {
    hide Inv, TreeAfter, LockAfter, HoldsNext;
    forall i <- Apply(w, step).locks
      ensures Holds(Apply(w, step), i) <==> HoldsNext(w, step, i)
    {
      HoldsAfter(w, step, i);
    }
    forall i <- w.locks
      ensures i in Apply(w, step).locks
      ensures Apply(w, step).locks[i].id == w.locks[i].id && Apply(w, step).locks[i].member == w.locks[i].member
    {
      NamesAfter(w, step, i);
    }
  }

  lemma StoreRefines(w: World, i: Instance, r: Entries)
    requires Inv(w) && Enabled(w, StorePath(i)) && Represents(w, r)
    ensures Represents(Apply(w, StorePath(i)), RegistryNext(w, StorePath(i), r))
  {
    hide Inv, Apply;
    StepHolding(w, StorePath(i));
    StorerIsFirst(w, i);
    if Live(w, PcOf(w, i, MAIN).node) {
      RepresentsMore(w, Apply(w, StorePath(i)), r, i);
    } else {
      RepresentsFewer(w, Apply(w, StorePath(i)), r, {});
      assert r - {} == r;
    }
  }

  /** Every step is a Try or an Unlock of the reference registry, the loss of a session, or leaves it alone. */
  lemma StepRefines(w: World, step: Step, r: Entries)
    requires Inv(w) && Enabled(w, step) && Represents(w, r)
    ensures Represents(Apply(w, step), RegistryNext(w, step, r))
  {
    hide Inv, Apply, Represents;
    if step.StorePath? {
      StoreRefines(w, step.i, r);
    } else {
      HoldersAreUnique(w);
      StepHolding(w, step);
      var gone :=
        match step
        case DeleteHeld(i, _, reply) => if reply.Refused? then {} else {w.locks[i].id}
        case Expire(s) => Released(w, s)
        case _ => {};
      if step.DeleteHeld? && !step.reply.Refused? {
        DeleterHolds(w, step);
      }
      RepresentsFewer(w, Apply(w, step), r, gone);
      assert r - {} == r;
    }
  }

  /** The reference registry after a whole run. */
  function RegistryAfter(w: World, steps: seq<Step>, r: Entries): Entries
    requires CanRun(w, steps)
    decreases |steps|
  {
    if steps == [] then r else RegistryAfter(Apply(w, steps[0]), steps[1..], RegistryNext(w, steps[0], r))
  }

  /** Whatever the interleaving, the instances that hold a lock are those the reference registry names. */
  lemma {:induction false} RunRefines(w: World, steps: seq<Step>, r: Entries)
    requires Inv(w) && CanRun(w, steps) && Represents(w, r)
    ensures Represents(Run(w, steps), RegistryAfter(w, steps, r))
    decreases |steps|
  {
    if steps != [] {
      StepKeepsInv(w, steps[0]);
      StepRefines(w, steps[0], r);
      RunRefines(Apply(w, steps[0]), steps[1..], RegistryNext(w, steps[0], r));
    }
  }
}
