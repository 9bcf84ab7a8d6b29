/** The Zookeeper non-blocking lock as a step machine.

    One step is one remote Zookeeper operation, or one group of local assignments, of one goroutine of one lock
    instance. Any number of instances, goroutines and Zookeeper sessions interleave. The times at which nodes came and
    went are kept, so that a read of the children may return the tree of an earlier time. */
module LockProtocol {
  import opened Options

  type Instance = nat
  type Thread = nat
  type Session = nat

  /** The goroutine that calls Try and Unlock; every other thread of an instance runs watchState. */
  const MAIN: Thread := 0

  /** An ephemeral sequential node `<id>/_c_<guid>-lock:<number>`. */
  datatype Node = Node(id: string, guid: string, number: nat)

  /** What was fixed when a node was created, and when that was. */
  datatype Birth = Birth(at: nat, owner: Instance, session: Session, member: string)

  /** What a call of Try or Unlock returned to its caller.  Try returns the flag it finds after it has stored there
      what the unexported try had answered; `won` keeps that answer, for the proofs only. */
  datatype Outcome = TryOutcome(ok: bool, failed: bool, won: bool) | UnlockOutcome(failed: bool)

  /** The reply to a Delete: done, done but reported as an error, or not done and reported as an error. */
  datatype Reply = Done | Lost | Refused

  datatype Pc =
    // between calls
    | Ready
    | Returned(outcome: Outcome)
    // inside Try
    | Creating
    | Created(node: Node)
    | Won(node: Node)
    | Losing(node: Node, failed: bool)
    | Storing(ok: bool, failed: bool)
    | Stored(ok: bool, failed: bool)
    | Returning(ok: bool, failed: bool)
    // inside Unlock
    | WantMutex
    | Deleting(node: Node)
    | ClearPath(node: Node)
    | ClearFlag
    // inside watchState, outside Unlock
    | Watching
    | Leaving
    | Finished

  /** One lock instance. `leaked` holds the nodes a call that returned an error may have left in the tree. */
  datatype Lock = Lock(
    id: string, member: string,
    acquired: bool, lockPath: Option<Node>,
    mutex: Option<Thread>, threads: map<Thread, Pc>,
    leaked: set<Node>)

  /** `births` and `deaths` record every node ever created and every node that is gone; `now` counts the changes. */
  datatype World = World(
    births: map<Node, Birth>,
    deaths: map<Node, nat>,
    now: nat,
    locks: map<Instance, Lock>,
    expired: set<Session>)

  datatype Step =
    | Join(i: Instance, id: string, member: string)
    | TryStart(i: Instance, connected: bool)
    | Create(i: Instance, node: Node, session: Session)
    | CreateFails(i: Instance)
    | CreateLost(i: Instance, node: Node, session: Session)
    | ReadLowest(i: Instance, k: nat)
    | ReadFails(i: Instance)
    | StorePath(i: Instance)
    | DropLosing(i: Instance, reply: Reply)
    | StoreFlag(i: Instance)
    | ReadFlag(i: Instance, watcher: Thread)
    | ReturnFlag(i: Instance)
    | Collect(i: Instance)
    | UnlockStart(i: Instance)
    | TakeMutex(i: Instance, t: Thread)
    | DeleteHeld(i: Instance, t: Thread, reply: Reply)
    | ErasePath(i: Instance, t: Thread)
    | EraseFlag(i: Instance, t: Thread)
    | WatcherLeaves(i: Instance, t: Thread, disconnected: bool)
    | WatcherDecides(i: Instance, t: Thread, flag: bool)
    | Expire(session: Session)

  const Initial := World(map[], map[], 0, map[], {})

  predicate Live(w: World, n: Node) {
    n in w.births && n !in w.deaths
  }

  /** Was `n` in the tree at time `k`? */
  predicate LiveAt(w: World, n: Node, k: nat) {
    n in w.births && w.births[n].at <= k && (n in w.deaths ==> k < w.deaths[n])
  }

  predicate At(w: World, i: Instance, t: Thread) {
    i in w.locks && t in w.locks[i].threads
  }

  function PcOf(w: World, i: Instance, t: Thread): Pc
    requires At(w, i, t)
  {
    w.locks[i].threads[t]
  }

  /** No live node of n's directory is numbered below `n`. */
  predicate NoneBelow(w: World, n: Node) {
    forall m <- w.births :: Live(w, m) && m.id == n.id ==> n.number <= m.number
  }

  /** `n` is the lowest numbered child of its directory in the tree of time `k`. */
  predicate IsLowestAt(w: World, n: Node, k: nat) {
    && LiveAt(w, n, k)
    && forall m <- w.births :: LiveAt(w, m, k) && m.id == n.id ==> n.number <= m.number
  }

  /** Zookeeper numbers the children of a directory upwards and never reuses a number. */
  predicate FreshNumber(w: World, n: Node) {
    forall m <- w.births :: m.id == n.id ==> m.number < n.number
  }

  predicate CanCreate(w: World, i: Instance, n: Node, s: Session) {
    At(w, i, MAIN) && PcOf(w, i, MAIN).Creating? && n.id == w.locks[i].id && FreshNumber(w, n) && s !in w.expired
  }

  /** A node that is gone can only be refused, with the "no node" error. */
  predicate CanReply(w: World, n: Node, r: Reply) {
    r.Refused? || Live(w, n)
  }

  predicate Enabled(w: World, step: Step) {
    match step
    case Join(i, _, _) => i !in w.locks
    case TryStart(i, _) => At(w, i, MAIN) && PcOf(w, i, MAIN).Ready?
    case Create(i, n, s) => CanCreate(w, i, n, s)
    case CreateFails(i) => At(w, i, MAIN) && PcOf(w, i, MAIN).Creating?
    case CreateLost(i, n, s) => CanCreate(w, i, n, s)
    case ReadLowest(i, k) =>
      && At(w, i, MAIN) && PcOf(w, i, MAIN).Created?
      && PcOf(w, i, MAIN).node in w.births
      && w.births[PcOf(w, i, MAIN).node].at <= k <= w.now
    case ReadFails(i) => At(w, i, MAIN) && PcOf(w, i, MAIN).Created?
    case StorePath(i) => At(w, i, MAIN) && PcOf(w, i, MAIN).Won?
    case DropLosing(i, r) => At(w, i, MAIN) && PcOf(w, i, MAIN).Losing? && CanReply(w, PcOf(w, i, MAIN).node, r)
    case StoreFlag(i) => At(w, i, MAIN) && PcOf(w, i, MAIN).Storing?
    case ReadFlag(i, t) => At(w, i, MAIN) && PcOf(w, i, MAIN).Stored? && t !in w.locks[i].threads
    case ReturnFlag(i) => At(w, i, MAIN) && PcOf(w, i, MAIN).Returning?
    case Collect(i) => At(w, i, MAIN) && PcOf(w, i, MAIN).Returned?
    case UnlockStart(i) => At(w, i, MAIN) && PcOf(w, i, MAIN).Ready?
    case TakeMutex(i, t) => At(w, i, t) && PcOf(w, i, t).WantMutex? && w.locks[i].mutex == None
    case DeleteHeld(i, t, r) => At(w, i, t) && PcOf(w, i, t).Deleting? && CanReply(w, PcOf(w, i, t).node, r)
    case ErasePath(i, t) => At(w, i, t) && PcOf(w, i, t).ClearPath?
    case EraseFlag(i, t) => At(w, i, t) && PcOf(w, i, t).ClearFlag?
    case WatcherLeaves(i, t, disconnected) =>
      At(w, i, t) && PcOf(w, i, t).Watching? && (disconnected || !w.locks[i].acquired)
    case WatcherDecides(i, t, flag) => At(w, i, t) && PcOf(w, i, t).Leaving? && flag == w.locks[i].acquired
    case Expire(s) => true
  }

  function Goto(l: Lock, t: Thread, pc: Pc): Lock {
    l.(threads := l.threads[t := pc])
  }

  function Plant(w: World, i: Instance, n: Node, s: Session): World
    requires i in w.locks
  {
    w.(births := w.births[n := Birth(w.now + 1, i, s, w.locks[i].member)], now := w.now + 1)
  }

  function Prune(w: World, gone: set<Node>): World {
    w.(deaths := w.deaths + map n <- gone :: w.now + 1, now := w.now + 1)
  }

  function Carry(w: World, n: Node, r: Reply): World {
    if r.Refused? then w else Prune(w, {n})
  }

  /** A call of Unlock by thread `t` is over: main returns to its caller, a watcher goroutine ends. */
  function AfterUnlock(t: Thread, failed: bool): Pc {
    if t == MAIN then Returned(UnlockOutcome(failed)) else Finished
  }

  function Expiring(w: World, s: Session): set<Node> {
    set n <- w.births | Live(w, n) && w.births[n].session == s
  }

  /** What a step does to the Zookeeper tree. */
  function TreeAfter(w: World, step: Step): World
    requires Enabled(w, step)
  {
    match step
    case Create(i, n, s) => Plant(w, i, n, s)
    case CreateLost(i, n, s) => Plant(w, i, n, s)
    case DropLosing(i, r) => Carry(w, PcOf(w, i, MAIN).node, r)
    case DeleteHeld(i, t, r) => Carry(w, PcOf(w, i, t).node, r)
    case Expire(s) => Prune(w, Expiring(w, s)).(expired := w.expired + {s})
    case _ => w
  }

  /** What a step does to the lock instance that takes it. */
  function LockAfter(w: World, step: Step): Lock
    requires Enabled(w, step) && !step.Expire?
  {
    match step
    case Join(_, id, member) => Lock(id, member, false, None, None, map[MAIN := Ready], {})
    case TryStart(i, connected) =>
      var l := w.locks[i];
      Goto(l, MAIN,
        if !connected then Returned(TryOutcome(false, true, false))
        else if l.lockPath.Some? then Storing(true, true)
        else Creating)
    case Create(i, n, _) => Goto(w.locks[i], MAIN, Created(n))
    case CreateFails(i) => Goto(w.locks[i], MAIN, Storing(false, true))
    case CreateLost(i, n, _) =>
      var l := w.locks[i];
      Goto(l.(leaked := l.leaked + {n}), MAIN, Storing(false, true))
    case ReadLowest(i, k) =>
      var n := PcOf(w, i, MAIN).node;
      Goto(w.locks[i], MAIN, if IsLowestAt(w, n, k) then Won(n) else Losing(n, false))
    case ReadFails(i) => Goto(w.locks[i], MAIN, Losing(PcOf(w, i, MAIN).node, true))
    case StorePath(i) =>
      Goto(w.locks[i].(lockPath := Some(PcOf(w, i, MAIN).node)), MAIN, Storing(true, false))
    case DropLosing(i, r) =>
      var l, pc := w.locks[i], PcOf(w, i, MAIN);
      if r.Done? then Goto(l, MAIN, Storing(false, pc.failed))
      else Goto(l.(leaked := l.leaked + {pc.node}), MAIN, Storing(false, true))
    case StoreFlag(i) =>
      var l, pc := w.locks[i], PcOf(w, i, MAIN);
      Goto(l.(acquired := pc.ok), MAIN, Stored(pc.ok, pc.failed))
    case ReadFlag(i, t) =>
      var l, pc := w.locks[i], PcOf(w, i, MAIN);
      var done := Goto(l, MAIN, Returning(pc.ok, pc.failed));
      if l.acquired then Goto(done, t, Watching) else done
    case ReturnFlag(i) =>
      var l, pc := w.locks[i], PcOf(w, i, MAIN);
      Goto(l, MAIN, Returned(TryOutcome(l.acquired, pc.failed, pc.ok)))
    case Collect(i) => Goto(w.locks[i], MAIN, Ready)
    case UnlockStart(i) => Goto(w.locks[i], MAIN, WantMutex)
    case TakeMutex(i, t) =>
      var l := w.locks[i];
      if l.lockPath.None? then Goto(l, t, AfterUnlock(t, true))
      else Goto(l.(mutex := Some(t)), t, Deleting(l.lockPath.value))
    case DeleteHeld(i, t, r) =>
      var l := w.locks[i];
      if r.Done? then Goto(l, t, ClearPath(PcOf(w, i, t).node))
      else Goto(l.(mutex := None), t, AfterUnlock(t, true))
    case ErasePath(i, t) => Goto(w.locks[i].(lockPath := None), t, ClearFlag)
    case EraseFlag(i, t) => Goto(w.locks[i].(acquired := false, mutex := None), t, AfterUnlock(t, false))
    case WatcherLeaves(i, t, _) => Goto(w.locks[i], t, Leaving)
    case WatcherDecides(i, t, flag) => Goto(w.locks[i], t, if flag then WantMutex else Finished)
  }

  function Apply(w: World, step: Step): World
    requires Enabled(w, step)
  {
    var tree := TreeAfter(w, step);
    if step.Expire? then tree else tree.(locks := w.locks[step.i := LockAfter(w, step)])
  }

  /** `steps` can be taken one after the other from `w`. */
  predicate CanRun(w: World, steps: seq<Step>)
    decreases |steps|
  {
    steps == [] || (Enabled(w, steps[0]) && CanRun(Apply(w, steps[0]), steps[1..]))
  }

  function Run(w: World, steps: seq<Step>): World
    requires CanRun(w, steps)
    decreases |steps|
  {
    if steps == [] then w else Run(Apply(w, steps[0]), steps[1..])
  }

  lemma {:induction false} RunAppend(w: World, a: seq<Step>, b: seq<Step>)
    requires CanRun(w, a) && CanRun(Run(w, a), b)
    ensures CanRun(w, a + b) && Run(w, a + b) == Run(Run(w, a), b)
    decreases |a|
  {
    if a == [] {
      assert a + b == b;
    } else {
      assert (a + b)[0] == a[0] && (a + b)[1..] == a[1..] + b;
      RunAppend(Apply(w, a[0]), a[1..], b);
    }
  }

  lemma {:induction false} RunSplit(w: World, a: seq<Step>, b: seq<Step>)
    requires CanRun(w, a + b)
    ensures CanRun(w, a) && CanRun(Run(w, a), b) && Run(w, a + b) == Run(Run(w, a), b)
    decreases |a|
  {
    hide Enabled, Apply;
    if a == [] {
      assert a + b == b;
    } else {
      assert (a + b)[0] == a[0] && (a + b)[1..] == a[1..] + b;
      RunSplit(Apply(w, a[0]), a[1..], b);
    }
  }
}
