/** The connection manager: it keeps one connection per configured target, and says which data may be forwarded. */
module ConnectionManagers {
  import opened Options
  import opened Rejections
  import opened Targets
  import opened ConnectionStates

  const NO_LOCK := "NoLock"
  const CLUSTER_MEMBER := "ClusterMember"

  class ConnectionManager {
    var connections: map<string, ConnectionState>
    /** Clustering is enabled. */
    const locking: bool
    const rejections: seq<Path>

    ghost predicate Valid()
      reads this, connections.Values
    {
      forall n <- connections :: connections[n].name == n
    }

    /** What each connection has been told to connect to. */
    ghost function View(): (v: View)
      reads this, connections.Values
      ensures v.Keys == connections.Keys
    {
      map n <- connections :: connections[n].Wanted()
    }

    constructor (locking: bool, rejections: seq<Path>)
      ensures Valid() && connections == map[] && this.locking == locking && this.rejections == rejections
    {
      this.locking, this.rejections := locking, rejections;
      connections := map[];
    }

    /** Ends the connections that a message removes. */
    method Remove(names: seq<string>) returns (disconnected: set<string>)
      requires Valid()
      modifies this, connections.Values`stopped
      ensures Valid() && disconnected == set n <- old(View()) | n in names
      ensures View() == old(View()) - disconnected && connections == old(connections) - disconnected
      ensures forall n <- connections :: connections[n].stopped == old(connections[n].stopped)
      ensures forall n <- disconnected :: old(connections)[n].stopped
    {
      disconnected := {};
      for i := 0 to |names|
        invariant Valid() && disconnected == set n <- old(connections) | n in names[..i]
        invariant connections == old(connections) - disconnected
        invariant forall n <- connections :: connections[n].stopped == old(connections[n].stopped)
        invariant forall n <- disconnected :: old(connections)[n].stopped
      {
        if names[i] in connections {
          connections[names[i]].stopped := true;
          disconnected := disconnected + {names[i]};
          connections := connections - {names[i]};
        }
      }
      assert names[..|names|] == names;
    }

    /** Makes a new connection, or updates and reconnects an existing one whose target has changed. */
    method InsertOne(c: Configuration, name: string) returns (reconnected: bool, started: bool)
      requires Valid() && name in c.target
      modifies this, connections.Values`target, connections.Values`request
      ensures Valid() && started == (name !in old(View())) && started == (name !in old(connections))
      ensures reconnected == (name in old(View()) && !SameTarget(old(View())[name].target, c.target[name]))
      ensures connections.Keys == old(connections).Keys + {name}
      ensures View() == Upserted(old(View()), c, {name})
      ensures forall n <- old(connections) :: connections[n] == old(connections)[n]
      ensures started ==> fresh(connections[name]) && IsNew(connections[name], c.target[name])
    {
      var newConfig := c.target[name];
      started, reconnected := false, false;
      if name in connections {
        var existing := connections[name];
        var same := Equal(existing.target, newConfig);
        if !same {
          existing.target := newConfig;
          existing.request := Get(c.request, newConfig.request);
          reconnected := true;
        }
      } else {
        var conn := new ConnectionState(name, NewWanted(c, name), locking && NO_LOCK !in newConfig.meta,
                                        CLUSTER_MEMBER in newConfig.meta, rejections);
        connections := connections[name := conn];
        started := true;
      }
    }

    /** A connection as it is made for a target: locked unless the target says otherwise or clustering is off. */
    predicate IsNew(conn: ConnectionState, t: Target)
      reads conn`stopped, conn`connectionLockAcquired
    {
      && !conn.stopped && !conn.connectionLockAcquired && conn.useLock == (locking && NO_LOCK !in t.meta) && conn.clusterMember == (CLUSTER_MEMBER in t.meta)
      && conn.rejections == rejections
    }

    /** Goes through the inserted targets, in any order. */
    method Insert(c: Configuration) returns (reconnected: set<string>, started: set<string>)
      requires Valid()
      modifies this, connections.Values`target, connections.Values`request
      ensures Valid() && View() == Upserted(old(View()), c, c.target.Keys)
      ensures started == set n <- c.target | n !in old(View())
      ensures reconnected == set n <- c.target | n in old(View()) && !SameTarget(old(View())[n].target, c.target[n])
      ensures forall n <- connections :: if n in old(connections) then connections[n] == old(connections)[n]
                else n in started && fresh(connections[n]) && IsNew(connections[n], c.target[n])
    {
      hide *;
      reconnected, started := {}, {};
      ghost var before := View();
      UpsertedNothing(before, c);
      var todo, done := c.target.Keys, {};
      while todo != {}
        invariant Valid() && done + todo == c.target.Keys && done !! todo
        invariant View() == Upserted(before, c, done)
        invariant forall n :: n in started <==> n in done && n !in before
        invariant forall n :: n in reconnected <==> n in done && n in before && !SameTarget(before[n].target, c.target[n])
        invariant forall n <- connections :: if n in old(connections) then connections[n] == old(connections)[n]
                    else n in done && fresh(connections[n]) && IsNew(connections[n], c.target[n])
      {
        var name :| name in todo;
        todo := todo - {name};
        UpsertedOneMore(before, c, done, name);
        var again, anew := InsertOne(c, name);
        done := done + {name};
        if again {
          reconnected := reconnected + {name};
        }
        if anew {
          started := started + {name};
        }
      }
    }

    /** First the removals, then the insertions. */
    method RemoveAndInsert(msg: Message)
      returns (disconnected: set<string>, reconnected: set<string>, started: set<string>)
      requires Valid()
      modifies this, connections.Values`stopped, connections.Values`target, connections.Values`request
      ensures Valid() && View() == Handle(old(View()), msg)
      ensures disconnected == Disconnects(old(View()), msg) && forall n <- disconnected :: old(connections)[n].stopped
      ensures reconnected == Reconnects(old(View()), msg) && started == Starts(old(View()), msg)
      ensures forall n <- connections :: if n in started
                then fresh(connections[n]) && n in Inserted(msg) && IsNew(connections[n], Inserted(msg)[n])
                else n in old(connections) && connections[n] == old(connections)[n]
      ensures forall n <- connections :: n in started || connections[n].stopped == old(connections[n].stopped)
    {
      hide *;
      ghost var before := View();
      disconnected := Remove(msg.remove);
      HandleInTwoParts(before, msg);
      reconnected, started := {}, {};
      if msg.insert.Some? {
        reconnected, started := Insert(msg.insert.value);
        InsertedNames(before, msg);
      } else {
        NothingInserted(before, msg);
      }
    }

    /** Handling a control message: the result says which connections were ended, reconnected and started. */
    method HandleTargetControlMsg(msg: Message)
      returns (disconnected: set<string>, reconnected: set<string>, started: set<string>)
      requires Valid()
      modifies this, connections.Values`stopped, connections.Values`target, connections.Values`request
      ensures Valid() && View() == Handle(old(View()), msg)
      ensures forall n :: n in disconnected <==> n in old(connections) && n in msg.remove
      ensures forall n :: n in started <==>
        msg.insert.Some? && n in msg.insert.value.target && (n !in old(connections) || n in msg.remove)
      ensures forall n :: n in reconnected <==>
        && msg.insert.Some? && n in msg.insert.value.target && n in old(connections) && n !in msg.remove
        && var was, t := old(connections[n].target), msg.insert.value.target[n];
           was.addresses != t.addresses || was.credentials != t.credentials
      ensures forall n :: n in connections <==> n in started || (n in old(connections) && n !in msg.remove)
      ensures forall n <- disconnected :: old(connections)[n].stopped
      ensures forall n <- started ::
        var meta, conn := msg.insert.value.target[n].meta, connections[n];
        && fresh(conn) && !conn.stopped && !conn.connectionLockAcquired && conn.rejections == rejections
        && conn.useLock == (locking && "NoLock" !in meta) && conn.clusterMember == ("ClusterMember" in meta)
      ensures forall n <- started + reconnected ::
        var c, t, conn := msg.insert.value, msg.insert.value.target[n], connections[n];
        conn.target == t && conn.request == if t.request in c.request then Some(c.request[t.request]) else None
      ensures forall n <- connections :: n !in started ==>
        && connections[n] == old(connections)[n] && connections[n].stopped == old(connections[n].stopped)
        && (n !in reconnected ==>
              connections[n].target == old(connections[n].target) && connections[n].request == old(connections[n].request))
    {
      hide *;
      ghost var before := View();
      ViewMeans();
      disconnected, reconnected, started := RemoveAndInsert(msg);
      ViewMeans();
      forall n: string {
        HandleMeans(before, msg, n);
      }
      forall n <- started {
        NewMeans(connections[n], msg, n);
      }
    }

    lemma ViewMeans()
      ensures forall n <- connections ::
        View()[n].target == connections[n].target && View()[n].request == connections[n].request
    {
    }

    lemma NewMeans(conn: ConnectionState, msg: Message, n: string)
      requires msg.insert.Some? && n in msg.insert.value.target
      ensures Inserted(msg) == msg.insert.value.target
      ensures IsNew(conn, msg.insert.value.target[n]) ==>
        var t := msg.insert.value.target[n];
        && !conn.stopped && !conn.connectionLockAcquired && conn.rejections == rejections
        && conn.useLock == (locking && "NoLock" !in t.meta) && conn.clusterMember == ("ClusterMember" in t.meta)
    {
    }

    /** Data that no one target is the source of is forwarded, and the data of a connection that forwards it. */
    ghost predicate MayForward(target: string)
      reads this, connections.Values
    {
      target == "*" || target == "" || exists n <- connections :: Forwards(connections[n], target)
    }

    /** Only other members of the cluster are a source of the target. */
    ghost predicate KnownFromPeersOnly(target: string)
      reads this, connections.Values
    {
      && target != "*" && target != ""
      && forall n <- connections ::
           connections[n].queryTarget == target || connections[n].Seen(target) ==> connections[n].clusterMember
    }

    /** Are notifications from the target forwarded to exporters and to other members of the cluster? */
    method Forwardable(target: string) returns (forwardable: bool)
      requires Valid()
      ensures forwardable <==> MayForward(target)
      ensures target == "*" || target == "" ==> forwardable
      ensures target != "*" && target != "" ==>
        (forwardable <==>
           exists n <- connections ::
             && !connections[n].clusterMember
             && (connections[n].useLock ==> connections[n].connectionLockAcquired)
             && (connections[n].queryTarget == target || (target in connections[n].seen && connections[n].seen[target])))
    {
      if target == "*" || target == "" {
        return true;
      }
      var todo := connections.Keys;
      while todo != {}
        invariant todo <= connections.Keys
        invariant forall n <- connections.Keys - todo :: !Forwards(connections[n], target)
      {
        var n :| n in todo;
        todo := todo - {n};
        var conn := connections[n];
        if conn.clusterMember {
          continue;
        }
        if conn.useLock && !conn.connectionLockAcquired {
          continue;
        }
        if conn.queryTarget == target || conn.Seen(target) {
          return true;
        }
      }
      return false;
    }
  }

  /** A connection of this gateway's own, with its lock if it needs one, that is for the target or has seen it. */
  predicate Forwards(conn: ConnectionState, target: string)
    reads conn
  {
    ForwardTest(conn.clusterMember, conn.useLock, conn.connectionLockAcquired,
                conn.queryTarget == target || conn.Seen(target))
  }

  /** The view after the targets `done` of a configuration have been gone through. */
  function Upserted(v: View, c: Configuration, done: set<string>): View
    requires done <= c.target.Keys
  {
    map n <- v.Keys + done :: if n in done then Upsert(Get(v, n), c, n) else v[n]
  }

  lemma UpsertedOneMore(v: View, c: Configuration, done: set<string>, name: string)
    requires done <= c.target.Keys && name in c.target && name !in done
    ensures Upserted(Upserted(v, c, done), c, {name}) == Upserted(v, c, done + {name})
    ensures name in Upserted(v, c, done) <==> name in v
    ensures name in v ==> Upserted(v, c, done)[name] == v[name]
  {
  }

  lemma UpsertedNothing(v: View, c: Configuration)
    ensures Upserted(v, c, {}) == v
  {
  }

  /** First the removals, then the insertions. */
  lemma HandleInTwoParts(v: View, msg: Message)
    ensures Disconnects(v, msg) == set n <- v | n in msg.remove
    ensures Handle(v, msg) ==
      if msg.insert.None? then v - Disconnects(v, msg)
      else Upserted(v - Disconnects(v, msg), msg.insert.value, msg.insert.value.target.Keys)
  {
    var v' := Handle(v, msg);
    forall n
      ensures Get(v', n) == HandleAt(Get(v, n), msg, n)
    {
    }
  }

  lemma InsertedNames(v: View, msg: Message)
    requires msg.insert.Some?
    ensures var kept, c := v - Disconnects(v, msg), msg.insert.value;
            && Starts(v, msg) == (set n <- c.target | n !in kept) && Inserted(msg) == c.target
            && Reconnects(v, msg) == set n <- c.target | n in kept && !SameTarget(kept[n].target, c.target[n])
  {
  }

  lemma NothingInserted(v: View, msg: Message)
    requires msg.insert.None?
    ensures Starts(v, msg) == {} && Reconnects(v, msg) == {}
  {
  }
}
