/** The goroutine of one connection as it is written: a loop around the slot, the lock and doConnect. */
module ConnectLoop {
  import opened ConnectionStates

  type Holder = nat

  /** What a loop asks of its surroundings and is answered, and what it does itself. */
  datatype Act =
    | SlotRefused
    | SlotTaken
    | SlotReleased
    | Tried(ok: bool)
    | Connected
    | Asked(held: bool)
    | Unlocked
    | FlagLowered

  /** The acts of one loop, in their order. */
  class Log {
    ghost var acts: seq<Act>

    constructor ()
      ensures acts == []
    {
      acts := [];
    }
  }

  /** The slots of a gateway, and who has one. */
  class Slots {
    const limit: nat
    var holders: set<Holder>

    predicate Valid()
      reads this
    {
      |holders| <= limit
    }

    constructor (limit: nat)
      ensures Valid() && this.limit == limit && holders == {}
    {
      this.limit, holders := limit, {};
    }

    method TryAcquire(me: Holder, log: Log) returns (acquired: bool)
      requires Valid() && me !in holders
      modifies this, log
      ensures Valid() && acquired == (|old(holders)| < limit)
      ensures holders == if acquired then old(holders) + {me} else old(holders)
      ensures log.acts == old(log.acts) + [if acquired then SlotTaken else SlotRefused]
    {
      acquired := |holders| < limit;
      if acquired {
        holders := holders + {me};
      }
      log.acts := log.acts + [if acquired then SlotTaken else SlotRefused];
    }

    method Release(me: Holder, log: Log)
      requires Valid() && me in holders
      modifies this, log
      ensures Valid() && holders == old(holders) - {me} && log.acts == old(log.acts) + [SlotReleased]
    {
      holders := holders - {me};
      log.acts := log.acts + [SlotReleased];
    }

    /** Other loops may take and give back slots. */
    method Others(me: Holder)
      requires Valid()
      modifies this
      ensures Valid() && (me in holders <==> me in old(holders))
    {
      var next: set<Holder> := *;
      if |next| <= limit && (me in next <==> me in holders) {
        holders := next;
      }
    }
  }

  /** A distributed lock, as far as the loop can tell: its flag may change whenever nobody looks. */
  class Locker {
    var flag: bool

    constructor ()
    {
      flag := false;
    }

    method Try(log: Log) returns (ok: bool)
      modifies this, log
      ensures log.acts == old(log.acts) + [Tried(ok)]
    {
      ok := *;
      flag := ok;
      log.acts := log.acts + [Tried(ok)];
    }

    method LockAcquired(log: Log) returns (held: bool)
      modifies log
      ensures held == flag && log.acts == old(log.acts) + [Asked(flag)]
    {
      held := flag;
      log.acts := log.acts + [Asked(flag)];
    }

    method Unlock(log: Log)
      modifies this, log
      ensures log.acts == old(log.acts) + [Unlocked]
    {
      flag := *;
      log.acts := log.acts + [Unlocked];
    }

    method Others()
      modifies this
    {
      flag := *;
    }
  }

  predicate MayFollow(a: Act, next: Act, useLock: bool) {
    match a
    case SlotRefused => next.SlotRefused? || next.SlotTaken?
    case SlotTaken => if useLock then next.Tried? else next.Connected?
    case Tried(ok) => if ok then next.Connected? else next.Tried? || next.SlotReleased?
    case Connected => if useLock then next.Asked? else next.Connected? || next.SlotReleased?
    case Asked(held) => if held then next.Unlocked? else next.FlagLowered?
    case Unlocked => next.FlagLowered?
    case FlagLowered => next.Tried? || next.SlotReleased?
    case SlotReleased => false
  }

  predicate Lawful(acts: seq<Act>, useLock: bool) {
    && (acts != [] ==> acts[0].SlotRefused? || acts[0].SlotTaken?)
    && forall k :: 0 < k < |acts| ==> MayFollow(acts[k - 1], acts[k], useLock)
  }

  predicate EndsWith(acts: seq<Act>, a: Act) {
    acts != [] && acts[|acts| - 1] == a
  }

  /** The loop may end here: it never got the slot, or has released it. */
  predicate MayEnd(acts: seq<Act>) {
    acts == [] || EndsWith(acts, SlotRefused) || EndsWith(acts, SlotReleased)
  }

  /** The rounds of the loop: each either is refused the slot, or tries the lock, or connects if there is none. */
  function Rounds(acts: seq<Act>, useLock: bool): nat {
    if acts == [] then 0
    else
      var a := acts[|acts| - 1];
      Rounds(acts[..|acts| - 1], useLock) +
      if a.SlotRefused? || (if useLock then a.Tried? else a.Connected?) then 1 else 0
  }

  /** Between taking the slot and releasing it. */
  predicate HasSlot(acts: seq<Act>) {
    SlotTaken in acts && SlotReleased !in acts
  }

  lemma OneMoreAct(acts: seq<Act>, useLock: bool, a: Act)
    requires Lawful(acts, useLock)
    requires if acts == [] then a.SlotRefused? || a.SlotTaken? else MayFollow(acts[|acts| - 1], a, useLock)
    ensures Lawful(acts + [a], useLock) && EndsWith(acts + [a], a)
    ensures Rounds(acts + [a], useLock) == Rounds(acts, useLock) +
      if a.SlotRefused? || (if useLock then a.Tried? else a.Connected?) then 1 else 0
  {
    assert (acts + [a])[..|acts|] == acts;
  }

  /** A lawful loop has its slot except before it gets one and after it has released it. */
  lemma {:induction false} SlotIsKept(acts: seq<Act>, useLock: bool)
    requires Lawful(acts, useLock)
    ensures HasSlot(acts) <==> !MayEnd(acts)
    ensures SlotReleased in acts <==> EndsWith(acts, SlotReleased)
    ensures SlotReleased in acts ==> SlotTaken in acts
  {
    if acts != [] {
      var n := |acts| - 1;
      SlotIsKept(acts[..n], useLock);
      assert acts == acts[..n] + [acts[n]];
    }
  }

  /** A lawful loop connects only while it has its slot and, if it uses a lock, right after a Try that returned true; at
      its end it has released the slot if it ever took it. */
  lemma ConnectsAreEarned(acts: seq<Act>, useLock: bool, k: nat)
    requires Lawful(acts, useLock)
    ensures k < |acts| && acts[k] == Connected ==> SlotTaken in acts[..k] && SlotReleased !in acts[..k]
    ensures k < |acts| && acts[k] == Connected && useLock ==> k > 0 && acts[k - 1] == Tried(true)
    ensures acts == [] || acts[|acts| - 1] in {SlotRefused, SlotReleased} ==> (SlotTaken in acts <==> SlotReleased in acts)
  {
    SlotIsKept(acts, useLock);
    if k < |acts| {
      SlotIsKept(acts[..k], useLock);
    }
  }

  /** An ended locking loop has, after each Try that returned true, connected, asked the lock whether it is still held,
      called Unlock exactly if it was, and lowered the flag. */
  lemma ConnectsAreUndone(acts: seq<Act>, k: nat)
    requires Lawful(acts, true) && k < |acts| && acts[|acts| - 1] in {SlotRefused, SlotReleased}
    ensures acts[k] == Tried(true) ==> k + 3 < |acts| && acts[k + 1] == Connected && acts[k + 2].Asked?
    ensures acts[k] == Connected ==> k + 2 < |acts| && acts[k + 1].Asked?
    ensures acts[k] == Connected ==> (acts[k + 2] == Unlocked <==> acts[k + 1] == Asked(true))
    ensures acts[k] == Connected ==>
      if acts[k + 1] == Asked(true) then k + 3 < |acts| && acts[k + 3] == FlagLowered else acts[k + 2] == FlagLowered
  {
    var n := |acts|;
    assert k + 1 < n ==> MayFollow(acts[k], acts[k + 1], true);
    assert k + 2 < n ==> MayFollow(acts[k + 1], acts[k + 2], true);
    assert k + 3 < n ==> MayFollow(acts[k + 2], acts[k + 3], true);
  }

  /** The part of doConnect that the model shows: what will be asked for. */
  method DoConnect(conn: ConnectionState, prefixTarget: string, log: Log)
    requires conn.Valid()
    modifies conn`queryTarget, log
    ensures conn.Valid() && conn.queryTarget == if prefixTarget != "" then prefixTarget else conn.name
    ensures log.acts == old(log.acts) + [Connected]
  {
    conn.SetQueryTarget(prefixTarget);
    log.acts := log.acts + [Connected];
  }

  /** What the locking loop does in one round once it has a slot. */
  method TryAndConnect(conn: ConnectionState, slots: Slots, lock: Locker, log: Log, me: Holder, prefixTarget: string)
    requires conn.Valid() && slots.Valid() && me in slots.holders && !conn.connectionLockAcquired
    requires Lawful(log.acts, true) && log.acts != [] && MayFollow(log.acts[|log.acts| - 1], Tried(true), true)
    modifies conn`connectionLockAcquired, conn`queryTarget, slots, lock, log
    ensures conn.Valid() && slots.Valid() && me in slots.holders && !conn.connectionLockAcquired
    ensures Lawful(log.acts, true) && Rounds(log.acts, true) == Rounds(old(log.acts), true) + 1
    ensures EndsWith(log.acts, Tried(false)) || EndsWith(log.acts, FlagLowered)
  {
    hide Lawful, Rounds;
    if !conn.connectionLockAcquired {
      OneMoreAct(log.acts, true, Tried(true));
      OneMoreAct(log.acts, true, Tried(false));
      conn.connectionLockAcquired := lock.Try(log);
    }
    if conn.connectionLockAcquired {
      OneMoreAct(log.acts, true, Connected);
      DoConnect(conn, prefixTarget, log);
      slots.Others(me);
      lock.Others();
      OneMoreAct(log.acts, true, Asked(lock.flag));
      var held := lock.LockAcquired(log);
      if held {
        OneMoreAct(log.acts, true, Unlocked);
        lock.Unlock(log);
      }
      conn.connectionLockAcquired := false;
      OneMoreAct(log.acts, true, FlagLowered);
      log.acts := log.acts + [FlagLowered];
    }
  }

  /** `heads` is how often the loop finds `stopped` unset.  It ends without the slot and with the flag down, after as
      many lawful rounds. */
  method ConnectWithLock(conn: ConnectionState, slots: Slots, lock: Locker, log: Log, me: Holder, prefixTarget: string,
                         heads: nat)
    requires conn.Valid() && slots.Valid() && me !in slots.holders && !conn.connectionLockAcquired && log.acts == []
    modifies conn`connectionLockAcquired, conn`queryTarget, slots, lock, log
    ensures conn.Valid() && slots.Valid() && me !in slots.holders && !conn.connectionLockAcquired
    ensures Lawful(log.acts, true) && MayEnd(log.acts) && Rounds(log.acts, true) == heads
  {
    var connectionSlotAcquired := false;
    for head := 0 to heads
      invariant conn.Valid() && slots.Valid() && !conn.connectionLockAcquired
      invariant connectionSlotAcquired == (me in slots.holders)
      invariant Lawful(log.acts, true) && Rounds(log.acts, true) == head
      invariant if connectionSlotAcquired then EndsWith(log.acts, Tried(false)) || EndsWith(log.acts, FlagLowered)
                else log.acts == [] || EndsWith(log.acts, SlotRefused)
    {
      hide Lawful, Rounds;
      slots.Others(me);
      lock.Others();
      if !connectionSlotAcquired {
        OneMoreAct(log.acts, true, SlotTaken);
        OneMoreAct(log.acts, true, SlotRefused);
        connectionSlotAcquired := slots.TryAcquire(me, log);
      }
      if connectionSlotAcquired {
        TryAndConnect(conn, slots, lock, log, me, prefixTarget);
      }
    }
    if connectionSlotAcquired {
      OneMoreAct(log.acts, true, SlotReleased);
      slots.Release(me, log);
    }
  }

  method Connect(conn: ConnectionState, slots: Slots, log: Log, me: Holder, prefixTarget: string, heads: nat)
    requires conn.Valid() && slots.Valid() && me !in slots.holders && log.acts == []
    modifies conn`queryTarget, slots, log
    ensures conn.Valid() && slots.Valid() && me !in slots.holders
    ensures Lawful(log.acts, false) && MayEnd(log.acts) && Rounds(log.acts, false) == heads
  {
    var connectionSlotAcquired := false;
    for head := 0 to heads
      invariant conn.Valid() && slots.Valid()
      invariant connectionSlotAcquired == (me in slots.holders)
      invariant Lawful(log.acts, false) && Rounds(log.acts, false) == head
      invariant if connectionSlotAcquired then EndsWith(log.acts, Connected)
                else log.acts == [] || EndsWith(log.acts, SlotRefused)
    {
      hide Lawful, Rounds;
      slots.Others(me);
      if !connectionSlotAcquired {
        OneMoreAct(log.acts, false, SlotTaken);
        OneMoreAct(log.acts, false, SlotRefused);
        connectionSlotAcquired := slots.TryAcquire(me, log);
      }
      if connectionSlotAcquired {
        OneMoreAct(log.acts, false, Connected);
        DoConnect(conn, prefixTarget, log);
      }
    }
    if connectionSlotAcquired {
      OneMoreAct(log.acts, false, SlotReleased);
      slots.Release(me, log);
    }
  }
}
