/** The single-process reference implementation of the lock: one shared registry from lock id to holding member. */
module LocalLock {

  type Entries = map<string, string>

  /** The registry after somebody tried to take `id`: the first taker stays. */
  function Tried(r: Entries, id: string, member: string): Entries {
    if id in r then r else r[id := member]
  }

  function Unlocked(r: Entries, id: string): Entries {
    r - {id}
  }

  class Registry {
    var entries: Entries

    constructor ()
      ensures entries == map[]
    {
      entries := map[];
    }
  }

  class NonBlockingLock {
    var acquired: bool
    const id: string
    const member: string
    const registry: Registry

    constructor (id: string, member: string, registry: Registry)
      ensures !acquired && this.id == id && this.member == member && this.registry == registry
    {
      this.acquired, this.id, this.member, this.registry := false, id, member, registry;
    }

    /** Deadlock is reported to an instance that has the lock already. */
    method Try(ghost locks: set<NonBlockingLock>) returns (ok: bool, deadlock: bool)
      requires this in locks && Exclusive(locks, registry)
      modifies this`acquired, registry
      ensures Exclusive(locks, registry)
      ensures deadlock == old(acquired)
      ensures ok == acquired == (old(acquired) || id !in old(registry.entries))
      ensures registry.entries == if old(acquired) then old(registry.entries) else Tried(old(registry.entries), id, member)
      ensures registry.entries == if ok && !deadlock then old(registry.entries)[id := member] else old(registry.entries)
    {
      if acquired {
        return true, true;
      }
      if id in registry.entries {
        return false, false;
      }
      registry.entries := registry.entries[id := member];
      acquired := true;
      return true, false;
    }

    method Unlock(ghost locks: set<NonBlockingLock>) returns (failed: bool)
      requires this in locks && Exclusive(locks, registry)
      modifies this`acquired, registry
      ensures Exclusive(locks, registry)
      ensures failed == !old(acquired) && !acquired
      ensures registry.entries == if old(acquired) then Unlocked(old(registry.entries), id) else old(registry.entries)
      ensures registry.entries == if failed then old(registry.entries) else old(registry.entries) - {id}
    {
      if !acquired {
        return true;
      }
      registry.entries := registry.entries - {id};
      acquired := false;
      return false;
    }

    /** The member of the instance that has the lock, and nothing if there is none. */
    method GetMember(id: string, ghost locks: set<NonBlockingLock>) returns (member: string)
      requires Exclusive(locks, registry)
      ensures forall l <- locks | l.acquired && l.id == id :: member == l.member
      ensures (forall l <- locks :: !(l.acquired && l.id == id)) ==> member == ""
    {
      member := if id in registry.entries then registry.entries[id] else "";
    }
  }

  /** Among the instances sharing `registry`, at most one per id has the lock, and the registry names its member. */
  ghost predicate Exclusive(locks: set<NonBlockingLock>, registry: Registry)
    reads locks, registry
  {
    && (forall l <- locks :: l.registry == registry)
    && (forall l <- locks :: l.acquired ==> l.id in registry.entries && registry.entries[l.id] == l.member)
    && (forall l <- locks, m <- locks :: l.acquired && m.acquired && l.id == m.id ==> l == m)
    && (forall id <- registry.entries :: exists l <- locks :: l.acquired && l.id == id)
  }
}
