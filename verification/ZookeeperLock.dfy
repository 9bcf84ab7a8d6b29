/** The lock's own code, run against the protocol: every execution of Try and Unlock, with whatever the other
    goroutines, gateways and Zookeeper do in between, is a run of the step machine. */
module ZookeeperLock {
  import opened Options
  import opened LockProtocol
  import opened LockSafety
  import opened LockTheorems
  import opened GoStrings
  import opened SequencePaths

  /** The state to which the steps lead. */
  ghost predicate Recorded(steps: seq<Step>, w: World) {
    CanRun(Initial, steps) && Run(Initial, steps) == w
  }

  /** Zookeeper and all lock instances using it, with the steps taken so far. */
  class Cluster {
    var world: World
    ghost var history: seq<Step>

    ghost predicate Valid()
      reads this
    {
      CanRun(Initial, history) && Run(Initial, history) == world && Inv(world)
    }

    constructor ()
      ensures Valid() && world == Initial
    {
      world, history := Initial, [];
    }

    /** A state that the cluster is in may be remembered with the steps that led to it. */
    lemma Snapshot()
      requires Valid()
      ensures Recorded(history, world)
    {
    }

    lemma Since(steps: seq<Step>, w: World)
      requires Valid() && Recorded(steps, w) && steps <= history
      ensures Later(w, world)
    {
      hide CanRun, Run, Inv;
      assert history == steps + history[|steps|..];
      RunSplit(Initial, steps, history[|steps|..]);
      RunIsLater(w, history[|steps|..]);
    }

    method Take(step: Step)
      requires Valid() && Enabled(world, step)
      modifies this
      ensures Valid() && world == Apply(old(world), step) && history == old(history) + [step]
    {
      RunAppend(Initial, history, [step]);
      StepKeepsInv(world, step);
      assert Run(world, [step]) == Apply(world, step);
      world := Apply(world, step);
      history := history + [step];
    }

    /** Everybody may run for a while. */
    method Anyone()
      requires Valid()
      modifies this
      ensures Valid() && old(history) <= history
      ensures forall n <- old(world.births) :: n in world.births && world.births[n] == old(world.births[n])
    {
      hide CanRun, Run, Inv, Apply, Enabled;
      var rounds: int := *;
      while rounds > 0
        invariant Valid() && old(history) <= history
        invariant forall n <- old(world.births) :: n in world.births && world.births[n] == old(world.births[n])
      {
        var step: Step := *;
        if Enabled(world, step) {
          BirthsStay(world, step);
          Take(step);
        }
        rounds := rounds - 1;
      }
    }

    /** Everybody but the caller of instance `me` may run for a while, its own watchers included. */
    method Others(me: Instance)
      requires Valid() && At(world, me, MAIN)
      modifies this
      ensures Valid() && old(history) <= history
      ensures At(world, me, MAIN) && PcOf(world, me, MAIN) == old(PcOf(world, me, MAIN))
      ensures world.locks[me].id == old(world.locks[me].id) && world.locks[me].member == old(world.locks[me].member)
    {
      hide CanRun, Run, Inv, Apply, Enabled;
      var rounds: int := *;
      while rounds > 0
        invariant Valid() && old(history) <= history
        invariant At(world, me, MAIN) && PcOf(world, me, MAIN) == old(PcOf(world, me, MAIN))
        invariant world.locks[me].id == old(world.locks[me].id) && world.locks[me].member == old(world.locks[me].member)
      {
        var step: Step := *;
        if Enabled(world, step) && !ByCaller(world, step, me) {
          CallerIsUntouched(world, step, me);
          Take(step);
        }
        rounds := rounds - 1;
      }
    }
  }

  lemma BirthsStay(w: World, step: Step)
    requires Enabled(w, step)
    ensures forall n <- w.births :: n in Apply(w, step).births && Apply(w, step).births[n] == w.births[n]
  {
    TreeStepGrows(w, step);
    hide TreeAfter, LockAfter;
  }

  /** The steps of the goroutine that calls Try and Unlock. */
  predicate ByCaller(w: World, step: Step, me: Instance) {
    && Actor(step, me)
    && match step
       case TakeMutex(_, t) => t == MAIN
       case DeleteHeld(_, t, _) => t == MAIN
       case ErasePath(_, t) => t == MAIN
       case EraseFlag(_, t) => t == MAIN
       case WatcherLeaves(_, _, _) => false
       case WatcherDecides(_, _, _) => false
       case _ => true
  }

  lemma ThreadLeavesCaller(w: World, step: Step)
    requires Enabled(w, step) && ByAnyThread(step) && step.t != MAIN && MAIN in w.locks[step.i].threads
    ensures var l := LockAfter(w, step);
            && MAIN in l.threads && l.threads[MAIN] == w.locks[step.i].threads[MAIN]
            && l.id == w.locks[step.i].id && l.member == w.locks[step.i].member
  {
  }

  lemma NotByCaller(w: World, step: Step, me: Instance)
    requires me in w.locks && ThreadsInv(w.locks[me]) && Enabled(w, step) && Actor(step, me) && !ByCaller(w, step, me)
    ensures ByAnyThread(step) && step.t != MAIN
  {
    hide FreshNumber, IsLowestAt, Live;
  }

  lemma CallerIsUntouched(w: World, step: Step, me: Instance)
    requires Inv(w) && At(w, me, MAIN) && Enabled(w, step) && !ByCaller(w, step, me)
    ensures At(Apply(w, step), me, MAIN) && PcOf(Apply(w, step), me, MAIN) == PcOf(w, me, MAIN)
    ensures Apply(w, step).locks[me].id == w.locks[me].id && Apply(w, step).locks[me].member == w.locks[me].member
  {
    hide Inv, Apply, LockAfter, Enabled, ThreadsInv, MutexInv, OwnsInv, LowestInv, ErasedInv, FlagInv, LeaksInv;
    hide ByCaller, ByAnyThread;
    InvAt(w, me);
    LocksAfterStep(w, step);
    if Actor(step, me) {
      NotByCaller(w, step, me);
      ThreadLeavesCaller(w, step);
    }
  }

  /** Where a node is in the tree; the empty string stands for no node, as in the lock's field. */
  function PathName(n: Option<Node>): string {
    if n.None? then "" else n.value.id + "/" + ChildName(n.value.guid, n.value.number)
  }

  /** The nodes of the children list of directory `id` as it was at time `k`. */
  ghost predicate ChildrenAt(w: World, id: string, k: nat, nodes: seq<Node>) {
    forall n :: n in nodes <==> LiveAt(w, n, k) && n.id == id
  }

  function Names(nodes: seq<Node>): seq<string> {
    seq(|nodes|, i requires 0 <= i < |nodes| => ChildName(nodes[i].guid, nodes[i].number))
  }

  /** Comparing one's own number with the lowest one found decides whether one's node is the lowest child. */
  lemma ComparisonDecides(w: World, n: Node, k: nat, nodes: seq<Node>, r: Lowest)
    requires Ordered(w) && n in w.births && ChildrenAt(w, n.id, k, nodes)
    requires WellNamed(Names(nodes)) && Scanned(n.id, Names(nodes), r)
    ensures n.number == r.number <==> IsLowestAt(w, n, k)
  {
    var names := Names(nodes);
    forall i | 0 <= i < |nodes|
      ensures Numbers(names)[i] == nodes[i].number
    {
      SequenceRoundTrip("", nodes[i].guid, nodes[i].number);
      assert names[i] in names;
    }
    if nodes != [] {
      LowestIsTrueMinimum(n.id, names, r);
      assert forall i | 0 <= i < |nodes| :: Numbers(names)[i] in Numbers(names);
    }
  }

  method ListChildren(w: World, id: string, k: nat) returns (names: seq<string>, nodes: seq<Node>)
    ensures ChildrenAt(w, id, k, nodes) && names == Names(nodes)
  {
    names, nodes := [], [];
    var rest := set n <- w.births | LiveAt(w, n, k) && n.id == id;
    while rest != {}
      invariant names == Names(nodes)
      invariant forall n :: n in nodes || n in rest <==> LiveAt(w, n, k) && n.id == id
    {
      var n :| n in rest;
      rest := rest - {n};
      nodes := nodes + [n];
      names := names + [ChildName(n.guid, n.number)];
    }
  }

  /** The node that lowestSeqChild's path leads to is the lowest child of the listing. */
  lemma PathLeadsToLowest(w: World, n: Node, k: nat, nodes: seq<Node>, r: Lowest)
    requires Ordered(w) && n in w.births && ChildrenAt(w, n.id, k, nodes)
    requires WellNamed(Names(nodes)) && Scanned(n.id, Names(nodes), r) && PathName(Some(n)) == r.path
    ensures IsLowestAt(w, n, k)
  {
    hide IsLowestAt, ParseSeq, Ordered, ChildrenAt;
    assert Names(nodes) != [] by { assert r.path != ""; }
    var c :| c in Names(nodes) && r.path == n.id + "/" + c && ParseSeq(c) == Number(r.number);
    SequenceRoundTrip(n.id, n.guid, n.number);
    assert ParseSeq(n.id + "/" + ChildName(n.guid, n.number)) == ParseSeq(n.id + "/" + c);
    SameEnd(n.id + "/", ChildName(n.guid, n.number), c);
    hide Scanned;
    ComparisonDecides(w, n, k, nodes, r);
  }

  lemma SameEnd(a: string, b: string, c: string)
    requires a + b == a + c
    ensures b == c
  {
    assert (a + b)[|a|..] == b && (a + c)[|a|..] == c;
  }

  lemma SomeNodeHasPath(id: string, nodes: seq<Node>, r: Lowest)
    requires WellNamed(Names(nodes)) && Scanned(id, Names(nodes), r) && r.path != ""
    requires forall n <- nodes :: n.id == id
    ensures exists n <- nodes :: PathName(Some(n)) == r.path
  {
    var names := Names(nodes);
    var c :| c in names && r.path == id + "/" + c;
    var j :| 0 <= j < |names| && names[j] == c;
    assert nodes[j] in nodes && PathName(Some(nodes[j])) == r.path;
  }

  lemma HoldersAreReported(w: World, n: Node)
    requires Reachable(w) && IsLowestAt(w, n, w.now)
    ensures forall i <- w.locks | Holds(w, i) && w.locks[i].id == n.id :: w.births[n].member == w.locks[i].member
  {
    assert n in w.births;
    hide Reachable, Inv, IsLowestAt, Holds;
    forall i <- w.locks | Holds(w, i) && w.locks[i].id == n.id
      ensures w.births[n].member == w.locks[i].member
    {
      HolderIsReported(w, i, n);
    }
  }

  /** Whoever holds the lock `id` has this member, and without any node of the lock it is empty. */
  ghost predicate Reports(w: World, id: string, member: string) {
    && (forall i <- w.locks | Holds(w, i) && w.locks[i].id == id :: member == w.locks[i].member)
    && ((forall n <- w.births | Live(w, n) :: n.id != id) ==> member == "")
  }

  /** The member of the lowest child of the directory, asked for after the children have been read: `seen` is the state,
      reached during the call, in which they were. */
  method GetMember(cluster: Cluster, id: string) returns (member: string, failed: bool, ghost seen: World, ghost k: nat)
    requires cluster.Valid()
    modifies cluster
    ensures cluster.Valid() && |old(cluster.history)| <= k <= |cluster.history|
    ensures CanRun(Initial, cluster.history[..k]) && Run(Initial, cluster.history[..k]) == seen
    ensures !failed ==> Reports(seen, "/" + Trim(id, '/'), member)
  {
    hide CanRun, Run, Inv, Trim, Scanned, WellNamed, Names, IsLowestAt, PathName, Holds;
    var trimmedId := "/" + Trim(id, '/');
    cluster.Anyone();
    seen, k := cluster.world, |cluster.history|;
    ghost var before := cluster.history;
    assert before[..k] == before;
    assert Timely(seen) && Ordered(seen) by { assert Inv(seen); InvHasTree(seen); }
    assert Reachable(seen);
    hide Reachable;
    var readFailed: bool := *;
    if readFailed {
      return "", true, seen, k;
    }
    var names, nodes := ListChildren(cluster.world, trimmedId, cluster.world.now);
    var lowest := LowestSeqChild(trimmedId, names);
    if lowest.BadChild? {
      return "", true, seen, k;
    }
    if lowest.path == "" {
      EmptyPathMeansEmpty(trimmedId, nodes, lowest);
      HolderIsListed(seen, trimmedId, nodes);
      return "", false, seen, k;
    }
    SomeNodeHasPath(trimmedId, nodes, lowest);
    var n :| n in nodes && PathName(Some(n)) == lowest.path;
    PathLeadsToLowest(seen, n, seen.now, nodes, lowest);
    HoldersAreReported(seen, n);
    assert Live(seen, n) by { LowestIsLive(seen, n); }
    cluster.Anyone();
    assert cluster.history[..k] == before;
    var getFailed: bool := *;
    if getFailed || !Live(cluster.world, n) {
      return "", true, seen, k;
    }
    return cluster.world.births[n].member, false, seen, k;
  }

  lemma LowestIsLive(w: World, n: Node)
    requires Timely(w) && IsLowestAt(w, n, w.now)
    ensures Live(w, n)
  {
  }

  lemma InvHasTree(w: World)
    requires Inv(w)
    ensures Timely(w) && Ordered(w)
  {
  }

  lemma EmptyPathMeansEmpty(id: string, nodes: seq<Node>, r: Lowest)
    requires WellNamed(Names(nodes)) && Scanned(id, Names(nodes), r) && r.path == ""
    ensures nodes == []
  {
    assert |Names(nodes)| == |nodes|;
  }

  lemma HolderIsListed(w: World, id: string, nodes: seq<Node>)
    requires Inv(w) && ChildrenAt(w, id, w.now, nodes)
    ensures forall i <- w.locks | Holds(w, i) && w.locks[i].id == id :: w.locks[i].lockPath.value in nodes
  {
    forall i <- w.locks | Holds(w, i) && w.locks[i].id == id
      ensures w.locks[i].lockPath.value in nodes
    {
      assert LockInv(w, i, w.locks[i]);
    }
  }

  class ZookeeperNonBlockingLock {
    const cluster: Cluster
    const me: Instance
    const id: string
    const member: string
    var acquired: bool
    var lockPath: string
    var number: int
    /** How many operations of this instance's caller Zookeeper has answered with an error. */
    ghost var failures: nat
    /** Whether the connection was up, each time that this instance's caller asked. */
    ghost var states: seq<bool>

    /** The fields are those of this instance in the protocol. */
    ghost predicate Mirrors()
      reads this`acquired, this`lockPath, this`number, cluster
    {
      && At(cluster.world, me, MAIN)
      && var l := cluster.world.locks[me];
         && l.id == id && l.member == member && l.acquired == acquired && PathName(l.lockPath) == lockPath
         && (l.lockPath.Some? ==> number == l.lockPath.value.number)
    }

    ghost predicate Valid()
      reads this`acquired, this`lockPath, this`number, cluster
    {
      cluster.Valid() && Mirrors()
    }

    function Pc(): Pc
      reads cluster
      requires At(cluster.world, me, MAIN)
    {
      PcOf(cluster.world, me, MAIN)
    }

    constructor (cluster: Cluster, me: Instance, id: string, member: string)
      requires cluster.Valid() && me !in cluster.world.locks
      modifies cluster
      ensures this.cluster == cluster && Valid() && Pc() == Ready
      ensures this.me == me && this.id == "/" + Trim(id, '/') && this.member == member
      ensures cluster.history == old(cluster.history) + [Join(me, this.id, member)]
    {
      var trimmedId := "/" + Trim(id, '/');
      this.cluster, this.me, this.id, this.member := cluster, me, trimmedId, member;
      acquired, lockPath, number, failures, states := false, "", 0, 0, [];
      new;
      cluster.Take(Join(me, trimmedId, member));
    }

    lemma Snapshot()
      requires Valid()
      ensures Recorded(cluster.history, cluster.world)
    {
      cluster.Snapshot();
    }

    lemma Since(steps: seq<Step>, w: World)
      requires Valid() && Recorded(steps, w) && steps <= cluster.history
      ensures Later(w, cluster.world)
    {
      cluster.Since(steps, w);
    }

    /** The point where other goroutines run; a watcher of this lock may have changed the fields. */
    method Yield()
      requires Valid()
      modifies this`acquired, this`lockPath, this`number, cluster
      ensures Valid() && Pc() == old(Pc()) && old(cluster.history) <= cluster.history
    {
      cluster.Others(me);
      var l := cluster.world.locks[me];
      acquired, lockPath := l.acquired, PathName(l.lockPath);
      if l.lockPath.Some? {
        number := l.lockPath.value.number;
      }
    }

    /** conn.CreateProtectedEphemeralSequential: a new node, or an error with or without one. */
    method CreateNode() returns (path: string, failed: bool, ghost n: Node)
      requires Valid() && Pc() == Creating
      modifies this`failures, cluster
      ensures Valid() && old(cluster.history) <= cluster.history
      ensures failures == old(failures) + if failed then 1 else 0
      ensures failed ==> Pc() == Storing(false, true)
      ensures !failed ==> Pc() == Created(n) && path == PathName(Some(n))
      ensures !failed ==> IsOwn(cluster.world, n) && n !in old(cluster.world.births)
    {
      hide CanRun, Run, Inv, FreshNumber;
      var guid: string := *;
      var number: int := *;
      var session: int := *;
      var lost: bool := *;
      if number < 0 || session < 0 {
        cluster.Take(CreateFails(me));
        failures := failures + 1;
        return "", true, Node("", "", 0);
      }
      var node := Node(id, guid, number);
      if !CanCreate(cluster.world, me, node, session) {
        cluster.Take(CreateFails(me));
        failures := failures + 1;
        return "", true, Node("", "", 0);
      }
      if lost {
        cluster.Take(CreateLost(me, node, session));
        failures := failures + 1;
        return "", true, Node("", "", 0);
      }
      FreshIsNew(cluster.world, Create(me, node, session));
      cluster.Take(Create(me, node, session));
      return PathName(Some(node)), false, node;
    }

    /** The node was created by this instance for its lock. */
    ghost predicate IsOwn(w: World, n: Node) {
      n.id == id && n in w.births && w.births[n].owner == me
    }

    /** conn.Children: an error, or the children as they were at some time since the own node was created. */
    method Children(ghost n: Node) returns (names: seq<string>, failed: bool, k: nat, ghost nodes: seq<Node>)
      requires Valid() && Pc() == Created(n)
      modifies this`failures
      ensures Valid() && failures == old(failures) + if failed then 1 else 0
      ensures !failed ==> ChildrenAt(cluster.world, id, k, nodes) && names == Names(nodes)
      ensures !failed ==> n in cluster.world.births && cluster.world.births[n].at <= k <= cluster.world.now
      ensures !failed ==> Enabled(cluster.world, ReadLowest(me, k))
    {
      hide CanRun, Run, Inv, FreshNumber, IsLowestAt, CanReply;
      InvAt(cluster.world, me);
      hide ThreadsInv, MutexInv, LowestInv, ErasedInv;
      var time: int := *;
      failed := *;
      names, nodes, k := [], [], 0;
      if failed || !(cluster.world.births[Pc().node].at <= time <= cluster.world.now) {
        failed := true;
        failures := failures + 1;
        return;
      }
      k := time;
      names, nodes := ListChildren(cluster.world, id, k);
    }

    /** conn.Delete of the node that lost. */
    method Drop(ghost n: Node) returns (failed: bool)
      requires Valid() && Pc().Losing? && Pc().node == n
      modifies this`failures, cluster
      ensures Valid() && old(cluster.history) <= cluster.history
      ensures failures == old(failures) + if failed then 1 else 0
      ensures Pc() == Storing(false, failed || old(Pc().failed))
      ensures !failed ==> n in cluster.world.deaths
    {
      hide CanRun, Run, Inv;
      var reply: Reply := *;
      if !CanReply(cluster.world, Pc().node, reply) {
        reply := Refused;
      }
      cluster.Take(DropLosing(me, reply));
      failed := !reply.Done?;
      if failed {
        failures := failures + 1;
      }
    }

    /** The sequence number or the children could not be read. */
    method Fail(ghost n: Node)
      requires Valid() && Pc() == Created(n)
      modifies cluster
      ensures Valid() && old(cluster.history) <= cluster.history
      ensures Pc() == Losing(n, true)
    {
      hide CanRun, Run, Inv;
      cluster.Take(ReadFails(me));
    }

    lemma ComparesRightly(path: string, lowest: Lowest, n: Node, k: nat, nodes: seq<Node>)
      requires Valid() && Pc() == Created(n) && path == PathName(Some(n))
      requires ChildrenAt(cluster.world, id, k, nodes)
      requires ParseSeq(path).Number? && lowest.Lowest? && WellNamed(Names(nodes)) && Scanned(id, Names(nodes), lowest)
      ensures ParseSeq(path).value == n.number
      ensures ParseSeq(path).value == lowest.number <==> IsLowestAt(cluster.world, n, k)
    {
      InvAt(cluster.world, me);
      assert Ordered(cluster.world) by { ValidIsOrdered(); }
      hide CanRun, Run, Inv, IsLowestAt, ParseSeq, Scanned, Ordered, ChildrenAt;
      SequenceRoundTrip(id, n.guid, n.number);
      ComparisonDecides(cluster.world, n, k, nodes, lowest);
    }

    lemma ValidIsOrdered()
      requires Valid()
      ensures Ordered(cluster.world)
    {
      hide CanRun, Run;
    }

    /** The comparison of the own sequence number with the lowest one found. */
    method Compare(path: string, lowest: Lowest, ghost n: Node, k: nat, ghost nodes: seq<Node>)
      requires Valid() && Pc() == Created(n) && path == PathName(Some(n))
      requires ChildrenAt(cluster.world, id, k, nodes) && Enabled(cluster.world, ReadLowest(me, k))
      requires ParseSeq(path).Number? && lowest.Lowest? && WellNamed(Names(nodes)) && Scanned(id, Names(nodes), lowest)
      modifies cluster
      ensures Valid() && old(cluster.history) <= cluster.history
      ensures ParseSeq(path).value == n.number
      ensures ParseSeq(path).value == lowest.number <==> IsLowestAt(cluster.world, n, k)
      ensures Pc() == if ParseSeq(path).value == lowest.number then Won(n) else Losing(n, false)
    {
      hide CanRun, Run, Inv, IsLowestAt, ParseSeq, Scanned, WellNamed, Names, ChildrenAt, PathName, FreshNumber, Live;
      ComparesRightly(path, lowest, n, k, nodes);
      cluster.Snapshot();
      ghost var w, h := cluster.world, cluster.history;
      cluster.Take(ReadLowest(me, k));
      cluster.Since(h, w);
      PastStays(w, cluster.world, n, k);
    }

    /** The lock is acquired. */
    method Keep(path: string, ghost n: Node)
      requires Valid() && Pc() == Won(n) && path == PathName(Some(n)) && ParseSeq(path) == Number(n.number)
      modifies this`acquired, this`lockPath, this`number, cluster
      ensures Valid() && old(cluster.history) <= cluster.history
      ensures Pc() == Storing(true, false) && lockPath == path
    {
      hide CanRun, Run, Inv;
      number := ParseSeq(path).value;
      lockPath := path;
      cluster.Take(StorePath(me));
    }

    /** Some node of the lock has a number that does not fit into an int. */
    ghost predicate Unreadable(w: World) {
      exists m <- w.births :: m.id == id && m.number > MAX_INT
    }

    lemma StillUnreadable(w: World, w': World)
      requires Later(w, w') && Unreadable(w)
      ensures Unreadable(w')
    {
      var m :| m in w.births && m.id == id && m.number > MAX_INT;
      assert m in w'.births;
    }

    lemma OwnIsUnreadable(w: World, n: Node)
      requires IsOwn(w, n) && ParseSeq(PathName(Some(n))).Malformed?
      ensures Unreadable(w)
    {
      SequenceRoundTrip(id, n.guid, n.number);
    }

    lemma ChildIsUnreadable(w: World, k: nat, nodes: seq<Node>)
      requires ChildrenAt(w, id, k, nodes) && !WellNamed(Names(nodes))
      ensures Unreadable(w)
    {
      var c :| c in Names(nodes) && !ParseSeq(c).Number?;
      var j :| 0 <= j < |nodes| && Names(nodes)[j] == c;
      SequenceRoundTrip("", nodes[j].guid, nodes[j].number);
      assert nodes[j] in nodes;
    }

    /** What was decided about a node stays so. */
    lemma StillDecided(w: World, w': World, n: Node, k: nat)
      requires Later(w, w') && IsOwn(w, n) && w.births[n].at <= k <= w.now
      ensures IsOwn(w', n) && w'.births[n].at <= k <= w'.now && (IsLowestAt(w', n, k) <==> IsLowestAt(w, n, k))
    {
      PastStays(w, w', n, k);
    }

    lemma StillOwn(w: World, w': World, n: Node)
      requires Later(w, w') && IsOwn(w, n)
      ensures IsOwn(w', n) && w'.births[n] == w.births[n]
    {
    }

    lemma NewBefore(w: World, w': World, n: Node)
      requires Later(w, w') && n !in w'.births
      ensures n !in w.births
    {
    }

    /** The error branches after the listing: the new node is deleted again. */
    method GiveUp(ghost n: Node)
      requires Valid() && Pc() == Created(n)
      modifies this`acquired, this`lockPath, this`number, this`failures, cluster
      ensures Valid() && old(cluster.history) <= cluster.history && failures >= old(failures)
      ensures Pc() == Storing(false, true)
      ensures old(Unreadable(cluster.world)) ==> Unreadable(cluster.world)
      ensures Later(old(cluster.world), cluster.world)
    {
      hide *;
      Snapshot();
      ghost var h, w := cluster.history, cluster.world;
      Fail(n);
      Yield();
      var dropFailed := Drop(n);
      Since(h, w);
      if Unreadable(w) {
        StillUnreadable(w, cluster.world);
      }
    }

    /** The end of try: keep the node if it has the lowest number, and delete it if not. */
    method Decide(path: string, lowest: Lowest, ghost n: Node, k: nat, ghost nodes: seq<Node>)
      returns (ok: bool, failed: bool)
      requires Valid() && Pc() == Created(n) && path == PathName(Some(n)) && IsOwn(cluster.world, n)
      requires ChildrenAt(cluster.world, id, k, nodes) && Enabled(cluster.world, ReadLowest(me, k))
      requires cluster.world.births[n].at <= k <= cluster.world.now
      requires ParseSeq(path).Number? && lowest.Lowest? && WellNamed(Names(nodes)) && Scanned(id, Names(nodes), lowest)
      modifies this`acquired, this`lockPath, this`number, this`failures, cluster
      ensures Valid() && old(cluster.history) <= cluster.history && Pc() == Storing(ok, failed)
      ensures failures == old(failures) + (if failed then 1 else 0) && (failed ==> !ok)
      ensures Later(old(cluster.world), cluster.world)
      ensures ok || !failed ==> (ok <==> IsLowestAt(cluster.world, n, k))
      ensures ok ==> lockPath == PathName(Some(n))
      ensures !ok && !failed ==> n in cluster.world.deaths
    {
      hide *;
      Snapshot();
      ghost var h, w := cluster.history, cluster.world;
      Compare(path, lowest, n, k, nodes);
      Since(h, w);
      StillDecided(w, cluster.world, n, k);
      Yield();
      if ParseSeq(path).value != lowest.number {
        var dropFailed := Drop(n);
        ok, failed := false, dropFailed;
      } else {
        Keep(path, n);
        ok, failed := true, false;
      }
      Since(h, w);
      StillDecided(w, cluster.world, n, k);
    }

    /** The source's unexported try.  With a path set it answers (true, ErrDeadlock).  Otherwise it fails only if one of
        its operations did or some number is unreadable, and if not, it answers whether its new node `n` was the lowest
        at the time `k` of the listing, keeps the path of that node if so, and deletes it if not. */
    method Attempt() returns (ok: bool, failed: bool, ghost n: Node, ghost k: nat)
      requires Valid()
      requires if lockPath == "" then Pc() == Creating else Pc() == Storing(true, true)
      modifies this`acquired, this`lockPath, this`number, this`failures, cluster
      ensures Valid() && old(cluster.history) <= cluster.history && failures >= old(failures)
      ensures Pc() == Storing(ok, failed)
      ensures old(lockPath) != "" ==> ok && failed && failures == old(failures)
      ensures old(lockPath) == "" && failed ==>
        !ok && (failures > old(failures) || exists m <- cluster.world.births :: m.id == id && m.number > MAX_INT)
      ensures old(lockPath) == "" && failures > old(failures) ==> failed
      ensures old(lockPath) == "" && !failed ==>
        && n.id == id && n !in old(cluster.world.births) && n in cluster.world.births
        && cluster.world.births[n].owner == me && cluster.world.births[n].at <= k <= cluster.world.now
        && (ok <==> IsLowestAt(cluster.world, n, k))
        && (if ok then lockPath == PathName(Some(n)) else n in cluster.world.deaths)
    {
      hide *;
      n, k := Node("", "", 0), 0;
      if lockPath != "" {
        return true, true, n, k;
      }
      Snapshot();
      ghost var h0, w0 := cluster.history, cluster.world;
      Yield();
      Since(h0, w0);
      ghost var w1 := cluster.world;
      var path, createFailed;
      path, createFailed, n := CreateNode();
      if createFailed {
        return false, true, n, k;
      }
      NewBefore(w0, w1, n);
      Snapshot();
      ghost var h2, w2 := cluster.history, cluster.world;
      Yield();
      Since(h2, w2);
      StillOwn(w2, cluster.world, n);
      var names, readFailed, time, nodes := Children(n);
      k := time;
      var lowest := BadChild;
      if !readFailed {
        lowest := LowestSeqChild(id, names);
      }
      if ParseSeq(path).Malformed? || lowest.BadChild? {
        if !readFailed {
          if lowest.BadChild? {
            ChildIsUnreadable(cluster.world, time, nodes);
          } else {
            OwnIsUnreadable(cluster.world, n);
          }
        }
        GiveUp(n);
        if !readFailed {
          UnreadableMeans(cluster.world);
        }
        return false, true, n, k;
      }
      ghost var w3 := cluster.world;
      ok, failed := Decide(path, lowest, n, time, nodes);
      StillDecided(w3, cluster.world, n, k);
      OwnMeans(cluster.world, n);
    }

    lemma UnreadableMeans(w: World)
      requires Unreadable(w)
      ensures exists m <- w.births :: m.id == id && m.number > MAX_INT
    {
    }

    lemma OwnMeans(w: World, n: Node)
      requires IsOwn(w, n)
      ensures n.id == id && n in w.births && w.births[n].owner == me
    {
    }

    /** conn.State() */
    method State() returns (connected: bool)
      modifies this`states
      ensures states == old(states) + [connected]
    {
      connected := *;
      states := states + [connected];
    }

    /** The flag is stored, looked at for a watcher, and returned, while watchers may change it. */
    method Report(won: bool, failed: bool) returns (ok: bool)
      requires Valid() && Pc() == Storing(won, failed)
      modifies this`acquired, this`lockPath, this`number, cluster
      ensures Valid() && old(cluster.history) <= cluster.history && Later(old(cluster.world), cluster.world)
      ensures Pc() == Returned(TryOutcome(ok, failed, won)) && (ok ==> won && acquired)
      ensures !ok && !failed ==> forall n <- cluster.world.births ::
                Live(cluster.world, n) && cluster.world.births[n].owner == me && n !in cluster.world.locks[me].leaked ==>
                  won && cluster.world.locks[me].lockPath == Some(n)
    {
      hide *;
      Snapshot();
      ghost var h, w := cluster.history, cluster.world;
      Yield();
      StoreResult(won, failed);
      Yield();
      WatchIfAcquired(won, failed);
      Yield();
      ok := ReturnResult(won, failed);
      Since(h, w);
    }

    /** Try returns the flag that it finds after storing there what the unexported try has answered.  It asks for the state
        of the connection once, and fails if that is down.  If it is up, and no path is set, `won` is false if try fails,
        which takes a failed operation or an unreadable number; if try does not fail, it has won exactly if its new node
        `n` was the lowest at the time `k` of the listing.  A false result without an error leaves a node, but for those
        that failed calls left, only if try had won. */
    method Try() returns (ok: bool, failed: bool, ghost won: bool, ghost found: string, ghost n: Node, ghost k: nat)
      requires Valid() && Pc() == Ready
      modifies this`acquired, this`lockPath, this`number, this`failures, this`states, cluster
      ensures Valid() && old(cluster.history) <= cluster.history
      ensures Pc() == Returned(TryOutcome(ok, failed, won)) && (ok ==> won && acquired)
      ensures |states| == |old(states)| + 1 && states[..|old(states)|] == old(states)
      ensures !states[|old(states)|] ==> !ok && failed && !won && failures == old(failures)
      ensures states[|old(states)|] && found != "" ==> won && failed && failures == old(failures)
      ensures states[|old(states)|] && found == "" && failed ==>
        !won && (failures > old(failures) || exists m <- cluster.world.births :: m.id == id && m.number > MAX_INT)
      ensures states[|old(states)|] && found == "" && !failed ==>
        && n.id == id && n !in old(cluster.world.births) && n in cluster.world.births
        && cluster.world.births[n].owner == me && cluster.world.births[n].at <= k <= cluster.world.now
        && (won <==> IsLowestAt(cluster.world, n, k))
      ensures !ok && !failed ==> forall m <- cluster.world.births ::
                Live(cluster.world, m) && cluster.world.births[m].owner == me && m !in cluster.world.locks[me].leaked ==>
                  won && cluster.world.locks[me].lockPath == Some(m)
    {
      hide *;
      Snapshot();
      ghost var h0, w0 := cluster.history, cluster.world;
      Yield();
      found, n, k := lockPath, Node("", "", 0), 0;
      var connected := State();
      Start(connected);
      if !connected {
        return false, true, false, found, n, k;
      }
      Since(h0, w0);
      ghost var w1 := cluster.world;
      ok, failed, n, k := Attempt();
      won := ok;
      ghost var w2 := cluster.world;
      ok := Report(ok, failed);
      if found == "" && !failed {
        NewBefore(w0, w1, n);
        OwnIs(w2, n);
        StillDecided(w2, cluster.world, n, k);
        OwnMeans(cluster.world, n);
      } else if found == "" {
        NumbersStay(w2, cluster.world);
      }
    }

    lemma OwnIs(w: World, n: Node)
      requires n.id == id && n in w.births && w.births[n].owner == me
      ensures IsOwn(w, n)
    {
    }

    lemma NumbersStay(w: World, w': World)
      requires Later(w, w')
      ensures (exists m <- w.births :: m.id == id && m.number > MAX_INT) ==>
        exists m <- w'.births :: m.id == id && m.number > MAX_INT
    {
    }

    /** The state of the connection and the path that is set decide how Try goes on. */
    method Start(connected: bool)
      requires Valid() && Pc() == Ready
      modifies cluster
      ensures Valid() && old(cluster.history) <= cluster.history
      ensures Pc() ==
        if !connected then Returned(TryOutcome(false, true, false)) else if lockPath == "" then Creating else Storing(true, true)
    {
      hide CanRun, Run, Inv;
      cluster.Take(TryStart(me, connected));
    }

    /** `l.acquired, err = l.try()` */
    method StoreResult(ok: bool, failed: bool)
      requires Valid() && Pc() == Storing(ok, failed)
      modifies this`acquired, this`lockPath, this`number, cluster
      ensures Valid() && old(cluster.history) <= cluster.history
      ensures Pc() == Stored(ok, failed) && acquired == ok
    {
      hide CanRun, Run, Inv;
      acquired := ok;
      cluster.Take(StoreFlag(me));
    }

    /** A watcher is started if the flag is up. */
    method WatchIfAcquired(ghost ok: bool, ghost failed: bool)
      requires Valid() && Pc() == Stored(ok, failed)
      modifies cluster
      ensures Valid() && old(cluster.history) <= cluster.history
      ensures Pc() == Returning(ok, failed)
      ensures acquired ==> exists t <- cluster.world.locks[me].threads :: PcOf(cluster.world, me, t) == Watching
    {
      hide CanRun, Run, Inv;
      var watcher := FreshThread(cluster.world.locks[me].threads.Keys);
      cluster.Take(ReadFlag(me, watcher));
      assert acquired ==> cluster.world.locks[me].threads[watcher] == Watching;
    }

    method ReturnResult(ghost won: bool, failed: bool) returns (ok: bool)
      requires Valid() && Pc() == Returning(won, failed)
      modifies cluster
      ensures Valid() && old(cluster.history) <= cluster.history && ok == acquired
      ensures Pc() == Returned(TryOutcome(ok, failed, won)) && (ok ==> won)
      ensures !ok && !failed ==> forall n <- cluster.world.births ::
                Live(cluster.world, n) && cluster.world.births[n].owner == me && n !in cluster.world.locks[me].leaked ==>
                  won && cluster.world.locks[me].lockPath == Some(n)
    {
      assert FlagInv(cluster.world.locks[me]) by { InvAt(cluster.world, me); }
      ok := acquired;
      cluster.Take(ReturnFlag(me));
      assert Reachable(cluster.world);
      hide CanRun, Run, Inv, Reachable, Live;
      if !ok && !failed {
        CleanFalseKeeps(cluster.world);
      }
    }

    lemma CleanFalseKeeps(w: World)
      requires Reachable(w) && At(w, me, MAIN) && PcOf(w, me, MAIN).Returned?
      requires PcOf(w, me, MAIN).outcome.TryOutcome? && !PcOf(w, me, MAIN).outcome.ok && !PcOf(w, me, MAIN).outcome.failed
      ensures forall n <- w.births :: Live(w, n) && w.births[n].owner == me && n !in w.locks[me].leaked ==>
        PcOf(w, me, MAIN).outcome.won && w.locks[me].lockPath == Some(n)
    {
      forall n <- w.births | Live(w, n) && w.births[n].owner == me && n !in w.locks[me].leaked
        ensures PcOf(w, me, MAIN).outcome.won && w.locks[me].lockPath == Some(n)
      {
        CleanFalseKeepsIff(w, me, n);
      }
    }

    /** Unlock waits for the mutex: a watcher that has it gets to the end of its own Unlock. */
    method AcquireMutex()
      requires Valid() && Pc() == WantMutex
      modifies this`acquired, this`lockPath, this`number, cluster
      ensures Valid() && old(cluster.history) <= cluster.history
      ensures Pc() == WantMutex && cluster.world.locks[me].mutex == None
    {
      Yield();
      var mutex := cluster.world.locks[me].mutex;
      if mutex.Some? {
        FinishWatcher(mutex.value);
      }
    }

    method FinishWatcher(t: Thread)
      requires Valid() && Pc() == WantMutex && cluster.world.locks[me].mutex == Some(t)
      modifies this`acquired, this`lockPath, this`number, cluster
      ensures Valid() && old(cluster.history) <= cluster.history
      ensures Pc() == WantMutex && cluster.world.locks[me].mutex == None
    {
      assert MutexInv(cluster.world.locks[me]);
      hide CanRun, Run, Inv, Apply, Enabled, PathName;
      var pc := cluster.world.locks[me].threads[t];
      if pc.Deleting? {
        FinishDelete(t);
        return;
      }
      if pc.ClearPath? {
        FinishPath(t);
      }
      FinishFlag(t);
    }

    method FinishDelete(t: Thread)
      requires Valid() && Pc() == WantMutex && t != MAIN
      requires At(cluster.world, me, t) && PcOf(cluster.world, me, t).Deleting?
      modifies cluster
      ensures Valid() && old(cluster.history) <= cluster.history
      ensures Pc() == WantMutex && cluster.world.locks[me].mutex == None
    {
      hide CanRun, Run, Inv;
      cluster.Take(DeleteHeld(me, t, Refused));
    }

    method FinishPath(t: Thread)
      requires Valid() && Pc() == WantMutex && t != MAIN
      requires At(cluster.world, me, t) && PcOf(cluster.world, me, t).ClearPath?
      modifies this`acquired, this`lockPath, this`number, cluster
      ensures Valid() && old(cluster.history) <= cluster.history
      ensures Pc() == WantMutex && At(cluster.world, me, t) && PcOf(cluster.world, me, t) == ClearFlag
    {
      hide CanRun, Run, Inv;
      lockPath := "";
      cluster.Take(ErasePath(me, t));
    }

    method FinishFlag(t: Thread)
      requires Valid() && Pc() == WantMutex && t != MAIN
      requires At(cluster.world, me, t) && PcOf(cluster.world, me, t) == ClearFlag
      modifies this`acquired, this`lockPath, this`number, cluster
      ensures Valid() && old(cluster.history) <= cluster.history
      ensures Pc() == WantMutex && cluster.world.locks[me].mutex == None
    {
      hide CanRun, Run, Inv;
      acquired := false;
      cluster.Take(EraseFlag(me, t));
    }

    method StartUnlock()
      requires Valid() && Pc() == Ready
      modifies cluster
      ensures Valid() && old(cluster.history) <= cluster.history && Pc() == WantMutex
    {
      hide CanRun, Run, Inv;
      cluster.Take(UnlockStart(me));
    }

    method LockMutex()
      requires Valid() && Pc() == WantMutex && cluster.world.locks[me].mutex == None
      modifies cluster
      ensures Valid() && old(cluster.history) <= cluster.history
      ensures if lockPath == "" then Pc() == Returned(UnlockOutcome(true)) else Pc().Deleting?
    {
      hide CanRun, Run, Inv;
      cluster.Take(TakeMutex(me, MAIN));
    }

    lemma DeletingHasPath()
      requires Valid() && Pc().Deleting?
      ensures lockPath != ""
    {
      InvAt(cluster.world, me);
      hide CanRun, Run, Inv, ErasedInv, LowestInv, OwnsInv, LeaksInv, FlagInv, Live;
    }

    /** conn.Delete of the node in `lockPath`. */
    method DeleteOwn() returns (refused: bool)
      requires Valid() && Pc().Deleting?
      modifies this`failures, cluster
      ensures Valid() && old(cluster.history) <= cluster.history
      ensures failures == old(failures) + if refused then 1 else 0
      ensures if refused then Pc() == Returned(UnlockOutcome(true)) else Pc().ClearPath?
    {
      hide CanRun, Run, Inv, PathName, FreshNumber, IsLowestAt;
      var reply: Reply := *;
      if !CanReply(cluster.world, Pc().node, reply) {
        reply := Refused;
      }
      cluster.Take(DeleteHeld(me, MAIN, reply));
      refused := !reply.Done?;
      if refused {
        failures := failures + 1;
      }
    }

    method ForgetPath()
      requires Valid() && Pc().ClearPath?
      modifies this`acquired, this`lockPath, this`number, cluster
      ensures Valid() && old(cluster.history) <= cluster.history
      ensures Pc() == ClearFlag
    {
      hide CanRun, Run, Inv;
      lockPath := "";
      number := 0;
      cluster.Take(ErasePath(me, MAIN));
    }

    method LowerFlag()
      requires Valid() && Pc() == ClearFlag
      modifies this`acquired, this`lockPath, this`number, cluster
      ensures Valid() && old(cluster.history) <= cluster.history
      ensures Pc() == Returned(UnlockOutcome(false)) && !acquired && lockPath == ""
    {
      assert ThreadsInv(cluster.world.locks[me]);
      hide CanRun, Run, Inv;
      acquired := false;
      cluster.Take(EraseFlag(me, MAIN));
    }

    /** Without an error the path is forgotten and the flag is down; ErrNotLocked is returned when no path is set, and
        any other error when the node could not be deleted, with the path kept. */
    method Unlock() returns (error: UnlockError)
      requires Valid() && Pc() == Ready
      modifies this`acquired, this`lockPath, this`number, this`failures, cluster
      ensures Valid() && old(cluster.history) <= cluster.history
      ensures Pc() == Returned(UnlockOutcome(error != NoError))
      ensures lockPath == "" <==> error != NotReleased
      ensures failures == old(failures) + if error == NotReleased then 1 else 0
      ensures error == NoError ==> !acquired
    {
      hide CanRun, Run, Inv, Apply, Enabled, PathName;
      StartUnlock();
      AcquireMutex();
      LockMutex();
      if lockPath == "" {
        return NotLocked;
      }
      Yield();
      DeletingHasPath();
      var refused := DeleteOwn();
      if refused {
        return NotReleased;
      }
      Yield();
      ForgetPath();
      Yield();
      LowerFlag();
      return NoError;
    }
  }

  /** What Unlock returns: nothing, ErrNotLocked, or the error of the delete. */
  datatype UnlockError = NoError | NotLocked | NotReleased

  method FreshThread(s: set<Thread>) returns (t: Thread)
    ensures t !in s
  {
    var rest := s;
    t := 0;
    while rest != {}
      invariant forall u <- s :: u in rest || u < t
    {
      var u :| u in rest;
      rest := rest - {u};
      if u >= t {
        t := u + 1;
      }
    }
  }
}
