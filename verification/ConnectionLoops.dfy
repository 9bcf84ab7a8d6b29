/** The connection loops of all gateways: each competes for one of its gateway's slots, then for the lock of its
    target, and then connects. One move is one test or assignment of a loop, or one step of the lock protocol. */
module ConnectionLoops {
  import opened Options
  import opened GoStrings
  import opened LockProtocol

  type Gateway = nat

  datatype LoopPc =
    | Head
    | WantSlot
    | WantLock
    | Trying
    | Connecting
    | CheckFlag
    | Unlocking
    | LowerFlag
    | Exiting
    | Gone

  /** One ConnectionState with its goroutine. `late` counts the connects begun after `stopped` was set. */
  datatype Loop = Loop(
    gateway: Gateway, name: string, useLock: bool, clusterMember: bool,
    pc: LoopPc, slot: bool, lockAcquired: bool, stopped: bool, late: nat,
    reports: set<string>)

  /** `limit` is the configured TargetLimit; `free` holds what is left of each gateway's slots. */
  datatype System = System(
    prefix: string, limit: nat,
    locks: World, loops: map<Instance, Loop>, free: map<Gateway, nat>)

  function MakeTargetLockPath(prefix: string, target: string): string {
    TrimRight(prefix, '/') + "/target/" + target
  }

  /** The lock's constructor trims the path it is given. */
  function LockId(prefix: string, target: string): string {
    "/" + Trim(MakeTargetLockPath(prefix, target), '/')
  }

  datatype Move =
    | StartGateway(g: Gateway)
    | Spawn(i: Instance, g: Gateway, name: string, useLock: bool, clusterMember: bool, member: string)
    | Stop(i: Instance)
    | Report(i: Instance, targets: set<string>)
    | CheckStopped(i: Instance)
    | AcquireSlot(i: Instance)
    | CallTry(i: Instance, connected: bool)
    | ConnectUnlocked(i: Instance)
    | TryReturns(i: Instance)
    | Hangup(i: Instance)
    | CallUnlock(i: Instance)
    | UnlockReturns(i: Instance)
    | ResetFlag(i: Instance)
    | Leave(i: Instance)
    | Remote(step: Step)

  function Initially(prefix: string, limit: nat): System {
    System(prefix, limit, Initial, map[], map[])
  }

  predicate LoopAt(s: System, i: Instance, pc: LoopPc) {
    i in s.loops && s.loops[i].pc == pc
  }

  /** The step of the lock protocol that a move takes, if any. */
  function LockStep(s: System, move: Move): Option<Step> {
    match move
    case Spawn(i, _, name, useLock, _, member) =>
      if useLock then Some(Join(i, LockId(s.prefix, name), member)) else None
    case CallTry(i, connected) => Some(TryStart(i, connected))
    case TryReturns(i) => Some(Collect(i))
    case CallUnlock(i) => if i in s.locks.locks && s.locks.locks[i].acquired then Some(UnlockStart(i)) else None
    case UnlockReturns(i) => Some(Collect(i))
    case Remote(step) => Some(step)
    case _ => None
  }

  predicate HasReturned(s: System, i: Instance) {
    At(s.locks, i, MAIN) && PcOf(s.locks, i, MAIN).Returned?
  }

  predicate LoopEnabled(s: System, move: Move) {
    match move
    case StartGateway(g) => g !in s.free
    case Spawn(i, g, _, _, _, _) => i !in s.loops && i !in s.locks.locks && g in s.free
    case Stop(i) => i in s.loops
    case Report(i, _) => i in s.loops
    case CheckStopped(i) => LoopAt(s, i, Head)
    case AcquireSlot(i) => LoopAt(s, i, WantSlot) && s.loops[i].gateway in s.free
    case CallTry(i, _) => LoopAt(s, i, WantLock) && s.loops[i].useLock && !s.loops[i].lockAcquired
    case ConnectUnlocked(i) => LoopAt(s, i, WantLock) && (!s.loops[i].useLock || s.loops[i].lockAcquired)
    case TryReturns(i) => LoopAt(s, i, Trying) && HasReturned(s, i) && PcOf(s.locks, i, MAIN).outcome.TryOutcome?
    case Hangup(i) => LoopAt(s, i, Connecting)
    case CallUnlock(i) => LoopAt(s, i, CheckFlag)
    case UnlockReturns(i) => LoopAt(s, i, Unlocking) && HasReturned(s, i)
    case ResetFlag(i) => LoopAt(s, i, LowerFlag)
    case Leave(i) => LoopAt(s, i, Exiting) && s.loops[i].gateway in s.free
    case Remote(step) => !step.Join? && !step.TryStart? && !step.UnlockStart? && !step.Collect?
  }

  predicate CanMove(s: System, move: Move) {
    LoopEnabled(s, move) && (LockStep(s, move).Some? ==> Enabled(s.locks, LockStep(s, move).value))
  }

  function Connect(l: Loop): Loop {
    l.(pc := Connecting, late := if l.stopped then l.late + 1 else l.late)
  }

  /** What a move does to the loop that makes it. */
  function LoopAfter(s: System, move: Move): Loop
    requires CanMove(s, move) && !move.StartGateway? && !move.Remote?
  {
    match move
    case Spawn(_, g, name, useLock, clusterMember, _) =>
      Loop(g, name, useLock, clusterMember, Head, false, false, false, 0, {})
    case Stop(i) => s.loops[i].(stopped := true)
    case Report(i, targets) => s.loops[i].(reports := targets)
    case CheckStopped(i) =>
      var l := s.loops[i];
      l.(pc := if l.stopped then Exiting else if l.slot then WantLock else WantSlot)
    case AcquireSlot(i) =>
      var l := s.loops[i];
      if s.free[l.gateway] > 0 then l.(slot := true, pc := WantLock) else l.(pc := Head)
    case CallTry(i, _) => s.loops[i].(pc := Trying)
    case ConnectUnlocked(i) => Connect(s.loops[i])
    case TryReturns(i) =>
      var ok := PcOf(s.locks, i, MAIN).outcome.ok;
      var l := s.loops[i].(lockAcquired := ok);
      if ok then Connect(l) else l.(pc := Head)
    case Hangup(i) =>
      var l := s.loops[i];
      l.(pc := if l.useLock then CheckFlag else Head)
    case CallUnlock(i) => s.loops[i].(pc := if LockStep(s, move).Some? then Unlocking else LowerFlag)
    case UnlockReturns(i) => s.loops[i].(pc := LowerFlag)
    case ResetFlag(i) => s.loops[i].(lockAcquired := false, pc := Head)
    case Leave(i) => s.loops[i].(slot := false, pc := Gone)
  }

  function LoopsAfter(s: System, move: Move): map<Instance, Loop>
    requires CanMove(s, move)
  {
    if move.StartGateway? || move.Remote? then s.loops else s.loops[move.i := LoopAfter(s, move)]
  }

  function FreeAfter(s: System, move: Move): map<Gateway, nat>
    requires CanMove(s, move)
  {
    match move
    case StartGateway(g) => s.free[g := s.limit]
    case AcquireSlot(i) =>
      var g := s.loops[i].gateway;
      if s.free[g] > 0 then s.free[g := s.free[g] - 1] else s.free
    case Leave(i) =>
      var g := s.loops[i].gateway;
      if s.loops[i].slot then s.free[g := s.free[g] + 1] else s.free
    case _ => s.free
  }

  function LocksAfter(s: System, move: Move): World
    requires CanMove(s, move)
  {
    if LockStep(s, move).Some? then Apply(s.locks, LockStep(s, move).value) else s.locks
  }

  function Moved(s: System, move: Move): System
    requires CanMove(s, move)
  {
    System(s.prefix, s.limit, LocksAfter(s, move), LoopsAfter(s, move), FreeAfter(s, move))
  }

  predicate CanMoveAll(s: System, moves: seq<Move>)
    decreases |moves|
  {
    moves == [] || (CanMove(s, moves[0]) && CanMoveAll(Moved(s, moves[0]), moves[1..]))
  }

  function MovedAll(s: System, moves: seq<Move>): System
    requires CanMoveAll(s, moves)
    decreases |moves|
  {
    if moves == [] then s else MovedAll(Moved(s, moves[0]), moves[1..])
  }
}
