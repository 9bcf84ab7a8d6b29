# A verified model of gnmi-gateway

gnmi-gateway runs as many gateways side by side. They share out their device connections through a Zookeeper lock, pass
every update on to each other, and let only the owner of a target's lock export its data. This project models the code
that decides all this, in Dafny 4.11, and proves what it promises. `dafny verify dfyconfig.toml` checks everything.

Code that several goroutines or processes interleave is modelled twice: as a step machine, over which every interleaving
is reasoned about, and, where the source changes fields in place, as classes and loops that are proved against it.

| part | files |
|---|---|
| The Zookeeper lock: step machine, invariant, promises; its reference implementation and the refinement to it; the lock instance as a class whose methods take the steps of the machine | `LockProtocol`, `LockSafety`, `LockTheorems`, `LockFlags`, `LocalLock`, `LockRefinement`, `ZookeeperLock`, `SequencePaths` |
| The connection loops of all gateways, with their slots and locks; the same loop as a method | `ConnectionLoops`, `LoopSafety`, `LoopTheorems`, `FaultFree`, `SmoothRuns`, `Newcomers`, `FlagOverlap`, `StaleWatchers`, `ConnectLoop`, `LoopActs`, `LoopProgress` |
| Connections, rejections, control messages, the connection manager, the loaders, and where they all end up | `ConnectionState`, `Rejections`, `Targets`, `ConnectionManager`, `Loaders`, `Convergence` |
| Cluster membership, registration and its parent nodes | `Membership`, `ParentPaths`, `PeerAddresses` |
| The transition buffer and one Subscribe call; its two goroutines as methods | `Gateway`, `CoalesceQueue`, `SubscribeProtocol`, `SubscribeSafety`, `SubscribeTheorems`, `SubscribeProgress`, `SubscriptionPaths`, `SubscribeServer` |
| The Prometheus counters | `PrometheusCounters` |
| Go's strings, numbers and nil | `GoStrings`, `Options` |

## How the pieces are modelled

- **The lock.** A Zookeeper read of the children may return the tree of any moment between the instance's own create and
  now. Sessions may expire at any time, a create may happen although its answer is lost, and a delete may be done, done
  but reported as failed, or refused. `watchState` goroutines run beside the caller of Try and Unlock. A lock is *held*
  when the node in `lockPath` is in the tree: `acquired` alone says less, as below.
- **The loops.** One move is one test or assignment of a loop, or one step of the lock protocol by anyone. A connection
  that is removed and inserted again is a new loop beside the old one.
- **A Subscribe call.** Devices write versions of leaves to the cache. A written leaf goes through the gateway's buffer to
  the matcher; the walk and the matcher feed one queue; the value of a leaf is read when it is sent.

## What the code does that its documentation does not say

- After its session has expired, a lock is lost for good: Unlock cannot delete a node that is gone, so `lockPath` stays
  set, and every later `try` answers `(true, ErrDeadlock)` without a node. A loop with such a lock connects again and
  again without holding anything (`ExpiryLosesLock`, `LostForever`).
- Try assigns the flag, reads it to decide about a watcher, and reads it again to return it. A watcher's Unlock can lower
  it in between, so that Try returns false without an error and keeps the lock (`FalseButHeld`, `ReturnsFalseIff`).
- `acquired` and `lockPath` can disagree, both ways, after a watcher's Unlock has overlapped a Try (`FlagWithoutPath`,
  `PathWithoutFlag`, with the exact conditions beside them); they agree if none does (`FlagMatchesPath`).
- A watcher leaves its loop because the flag is down after an Unlock, finds the flag up again after the next Try, and
  deletes the new node. So two gateways can be connected for one name although neither Zookeeper nor a connection ever
  fails (`TwoConnectedAtOnce`, `StaleWatcherBreaks`). Without faults this is the only way (`UnbackedNeedsStale`).
- Two gateways can have `ConnectionLockAcquired` up for one name at once without any fault or stale watcher: a loop resets
  it only after its Unlock has let another gateway in (`TwoFlagsAtOnce`, `OverlapArises`). Without faults and stale
  watchers this is the only way (`FlagsExclude`), and the connections themselves exclude each other (`ConnectedOnce`).
- After a refused delete a stopped loop ends and keeps its lock (`EndedButHolds`, `EndedHoldsIff`).
- `Equal` returns true when the configurations are the same, unlike its comment. It looks at neither the request nor the
  meta data, so a target whose request alone has changed keeps the old one (`RequestChangeIsIgnored`).
- `lowestSeqChild` uses -1 for "none yet", so it finds the minimum for all numbers exactly if that is not -1 or comes last
  (`ScanIsMinimumIff`).
- A subscription without a path is walked over but gets no updates (`KeptCurrentIff`).
- The caller of Subscribe is taken for a member of the cluster if its address agrees with a member's before the first
  colon, so IPv6 addresses that begin alike are not told apart (`SameCallerIff`).
- With an empty ZookeeperPrefix the registration path starts with two slashes (`RegistrationIsWellFormedIff`).

## Model

| member | source | states |
|---|---|---|
| LockSafety.StepKeepsInv | gateway/locking/zookeeper.go:118-274 | every step of any goroutine or of Zookeeper keeps the protocol's invariant: order of nodes, sole deleter, ownership, no lower live node, every live node accounted for, the flag up only after a try that won |
| LockSafety.StaleReadStillLowest | gateway/locking/zookeeper.go:168-187 | a node that was the lowest child in the tree of any time after its creation has no live node below it now, so a stale read of the children cannot grant a lock twice |
| LockTheorems.MutualExclusion | gateway/locking/zookeeper.go:134-187 | in every reachable state at most one instance per lock id has a `lockPath` that names a live node, and that node is the lowest of its directory |
| LockTheorems.HolderIsReported | gateway/locking/zookeeper.go:89-103 | with contenders in flight, the lowest child of a held lock is the holder's node and carries the holder's member name |
| ZookeeperLock.GetMember | gateway/locking/zookeeper.go:89-103 | found by way of the children's names and a path, others running before the children are read and before the data are: unless an operation fails, the member of whoever held the lock when the children were read, and the empty string if the directory had no live node |
| LockTheorems.DeletesOwnNode | gateway/locking/zookeeper.go:162-182 | a Delete of Try or Unlock is only ever of a node that this very instance created for this lock |
| LockTheorems.OnlyOwnersDelete | gateway/locking/zookeeper.go:257-265 | a node disappears only by a step of the instance that created it, or with its session |
| LockTheorems.CleanFalseKeepsIff | gateway/locking/zookeeper.go:118-129 | after a Try that returned false without an error, a node of the instance is live and not left by an earlier failed call iff it is live and in `lockPath`; there is none unless `try` had won |
| LockTheorems.LeaksAreReported | gateway/locking/zookeeper.go:142-158 | a step that leaves a node behind leads to an error result of Try |
| LockTheorems.ExpiryLosesLock | gateway/locking/zookeeper.go:263-265 | the expiry of the holder's session leaves `lockPath` naming a node that is gone |
| LockTheorems.LostForever | gateway/locking/zookeeper.go:135-137 | a lost lock stays lost in every continuation and is never held again, `try` answers true with ErrDeadlock, and once no Unlock is in the middle of clearing the lock none ever lowers its flag again |
| LoopProgress.CallsGoForward | gateway/locking/zookeeper.go:118-274 | no step of Try or Unlock leads back: each brings the caller nearer to the end of its call |
| LockFlags.ReturnsFalseIff | gateway/locking/zookeeper.go:122-126 | a Try whose `try` has won returns false exactly if an Unlock of a watcher lowers the flag between its assignment and its last reading |
| LockFlags.FalseButHeld | gateway/locking/zookeeper.go:122-126 | a reachable state in which Try has returned false without an error although it holds the lock with a live node |
| LockFlags.FlagWithoutPathIff | gateway/locking/zookeeper.go:122-137 | Try raises the flag without a path exactly if a watcher has erased the path since Try read or stored it |
| LockFlags.PathWithoutFlagIff | gateway/locking/zookeeper.go:267-270 | an Unlock lowers the flag of a lock that has a path exactly if a Try has stored one since the Unlock erased its own |
| LockFlags.FlagMatchesPath | gateway/locking/zookeeper.go:118-187 | if no watcher ever has the mutex while a Try is under way, `acquired` equals `lockPath != ""` whenever the mutex is free and no Try is about to store its answer |
| LockFlags.FlagWithoutPath | gateway/locking/zookeeper.go:239-252 | a reachable state in which Try has returned true and `acquired` is set but `lockPath` is not |
| LockFlags.PathWithoutFlag | gateway/locking/zookeeper.go:239-252 | a reachable state in which Try has returned true and the lock is held, but `acquired` is down |
| SequencePaths.SequenceRoundTrip | gateway/locking/zookeeper.go:113-116 | the number is read back from every child name and every path made of it, whatever colons stand before; numbers beyond an int are errors |
| SequencePaths.LowestSeqChild | gateway/locking/zookeeper.go:214-233 | fails iff some child's number cannot be read; otherwise yields the scan's number with the path of a child that has this number, and (-1, "") without children |
| SequencePaths.ScanIsMinimumIff | gateway/locking/zookeeper.go:220-231 | the scan yields the minimum of any integers exactly if that is not -1 or stands last |
| SequencePaths.LowestIsTrueMinimum | gateway/locking/zookeeper.go:214-233 | for numbers that Zookeeper gives, the result is the true minimum, and (-1, "") iff there are no children |
| LocalLock.NonBlockingLock.Try | gateway/locking/local.go:59-70 | takes a free id for its member, fails on a taken one, reports deadlock to the holder; holders stay unique and the registry names them |
| LocalLock.NonBlockingLock.Unlock | gateway/locking/local.go:72-79 | frees the id of the holder only, and keeps holders unique |
| LocalLock.NonBlockingLock.GetMember | gateway/locking/local.go:47-53 | the member of whichever instance has the lock, and the empty string if none has |
| LockRefinement.StorerIsFirst | gateway/locking/zookeeper.go:183-186 | when an instance whose node is live stores its path, nobody holds that lock |
| LockRefinement.StepRefines | gateway/locking/zookeeper.go:118-187 | every step of the Zookeeper lock is, on the registry of holders, a Try or an Unlock of the reference implementation, the release of an expired session's locks, or nothing |
| LockRefinement.RunRefines | gateway/locking/local.go:59-79 | over any run the holders are exactly those in the registry on which the reference operations were carried out |
| ZookeeperLock.ComparisonDecides | gateway/locking/zookeeper.go:176 | the code's comparison of its own number with the lowest one, both read from paths, says whether the node is the lowest child of the listing |
| ZookeeperLock.ZookeeperNonBlockingLock.Attempt | gateway/locking/zookeeper.go:134-187 | `try()` over fields and paths, with everyone else running between its steps, takes only steps of the lock protocol. From an empty path it fails only if Zookeeper failed an operation or a child's number is beyond an int; otherwise it wins exactly if the node that it created is the lowest child in the tree of the time at which the children were read, and has then stored its path, and else the node is gone |
| ZookeeperLock.ZookeeperNonBlockingLock.Try | gateway/locking/zookeeper.go:118-129 | likewise for Try, watchers running between the assignment of the flag, the test for a watcher and the return: an error without a try if not connected, ErrDeadlock if a path is set; otherwise an error only for a failed operation or such a number, and without one the try won exactly if its node was the lowest child; true only if the flag is up and the try won; false without an error leaves, beside what failed calls left, no node but that in `lockPath`, and that only if the try won |
| ZookeeperLock.ZookeeperNonBlockingLock.Unlock | gateway/locking/zookeeper.go:257-274 | takes only steps of the protocol; afterwards `lockPath` is set exactly if the delete failed, ErrNotLocked and success leave it empty, success leaves the flag down, and the error of the delete is returned exactly if Zookeeper reported one |
| ZookeeperLock.CallerIsUntouched | gateway/locking/zookeeper.go:239-252 | steps of watchers, other instances and Zookeeper leave the caller of an instance where it is |
| LoopSafety.MoveKeepsInv | gateway/connections/state.go:236-273 | every move keeps each loop's discipline, its place beside its lock, and the count of slots |
| LoopTheorems.SlotsAreConserved | gateway/connections/state.go:218-273 | in every reachable state free slots plus slots held by loops are TargetLimit, so no more than TargetLimit loops of a gateway are in doConnect, old loops winding down included |
| LoopTheorems.ConnectIsEarned | gateway/connections/state.go:243-255 | doConnect is entered only with a slot and, under a lock, only on a Try that returned true; once `stopped` is set only if it has not been since |
| LoopTheorems.EndedLoopsHaveNoSlot | gateway/connections/state.go:262-272 | at the loop head and after the loop `ConnectionLockAcquired` is false, after it the slot is back, and at most one connect began after `stopped` was set |
| LoopProgress.StoppedLoopsEnd | gateway/connections/state.go:236-273 | from every reachable state a stopped loop can come to its end by moves of its own and of its lock, with its slot given back and its flag down |
| LoopActs.LoopsAreLawful | gateway/connections/state.go:218-273 | over every run of the cluster the acts of each loop are lawful for the loop as written, and complete once it has ended |
| LoopTheorems.SingleExporter | gateway/connections/zookeeper.go:85-105 | if, members of the cluster aside, only connections of one locked name report a target, at most one loop in the cluster passes the manager's Forwardable test for it and also holds a live lock node |
| LoopTheorems.PassesOnlyConnected | gateway/connections/zookeeper.go:92-102 | a loop that uses a lock passes the test of Forwardable only with its flag up, from the Try that returned true until it resets the flag, and only while it is not stopped |
| LoopTheorems.BackingEndsExactlyWhen | gateway/connections/state.go:253-261 | while a loop is connected it stops holding its lock exactly when its session expires or one of its watchers deletes the node |
| FaultFree.ConnectedHolds | gateway/connections/state.go:246-255 | without faults (expiry, a disconnect seen by a watcher, a delete done but reported as failed) and without stale decisions (a watcher that left its loop on a lowered flag and finds it up again), a loop in doConnect holds its lock |
| FaultFree.UnbackedNeedsStale | gateway/locking/zookeeper.go:239-249 | in a run without faults a loop is connected without its lock only if some watcher has taken a stale decision |
| StaleWatchers.StaleWatcherBreaks | gateway/locking/zookeeper.go:246-250 | whenever a watcher that has left its loop finds the flag of a connected loop up, and no other node of the lock is live, the run can go on, nothing failing, until two gateways are connected for the name |
| StaleWatchers.TwoConnectedAtOnce | gateway/locking/zookeeper.go:239-252 | a run in which nothing fails and two gateways are in doConnect for one name with both flags up |
| FaultFree.ConnectedOnce | gateway/connections/state.go:236-273 | without faults and stale decisions no two loops of one locked name are in doConnect at once |
| FaultFree.FlagsExclude | gateway/connections/state.go:256-262 | there, two flags for one name are up at once only if one of the loops no longer holds its lock and is between its Unlock and the reset of its flag |
| FaultFree.ExportersOverlapOnly | gateway/connections/zookeeper.go:92-102 | there, two loops pass the test of Forwardable for one name at once only while one of them no longer holds its lock and is between its Unlock and the reset of its flag |
| FlagOverlap.OverlapArises | gateway/connections/state.go:256-262 | conversely, from every state in which a loop's flag is up and no node of its lock is live, a smooth run leads to two flags up for the name without a move of that loop, and to two connections if it is connected |
| FaultFree.UnlockedUnlessFailed | gateway/connections/state.go:256-261 | there, a loop whose Unlock is over still holds its lock iff the Unlock returned an error |
| FaultFree.EndedHoldsIff | gateway/connections/state.go:269-272 | there, a loop that has ended holds its lock iff the lock's own flag is still up |
| StaleWatchers.EndedButHolds | gateway/connections/state.go:256-272 | after one refused delete, a loop has ended and still holds its lock |
| FlagOverlap.TwoFlagsAtOnce | gateway/connections/state.go:256-262 | a run without any failure or stale decision in which two gateways have their flag up for one name |
| ConnectLoop.ConnectWithLock | gateway/connections/state.go:236-273 | the loop as written does one lawful round per loop head: it is refused the slot, or tries the lock and, exactly if that returned true, connects, asks whether the lock is still held, unlocks exactly if it is, and lowers the flag; at the end the slot is released and the flag down |
| ConnectLoop.Connect | gateway/connections/state.go:218-231 | the same for the loop without a lock, which connects in every round once it has the slot |
| ConnectLoop.ConnectsAreEarned | gateway/connections/state.go:236-273 | a lawful loop connects only while it has the slot and, under a lock, right after a Try that returned true; at its end it has released the slot iff it ever took it |
| ConnectLoop.ConnectsAreUndone | gateway/connections/state.go:253-262 | in an ended lawful locking loop every true Try is followed by one connect, the question whether the lock is held, an Unlock exactly if the answer was yes, and the reset of the flag |
| ConnectionManagers.ConnectionManager.HandleTargetControlMsg | gateway/connections/zookeeper.go:119-185 | for any order of iteration the connections become what the message means for each name; exactly the named ones are stopped, reconnected and started; all others are the same objects, and nothing but the target and request of the reconnected ones changes |
| ConnectionManagers.ConnectionManager.Forwardable | gateway/connections/zookeeper.go:85-105 | true iff the target is "*" or empty, or some connection that is no cluster member, and has `connectionLockAcquired` if it uses a lock, is for the target or has seen it |
| Targets.Equal | gateway/connections/state.go:118-141 | true iff addresses and credentials are equal |
| Targets.HandleMeans | gateway/connections/zookeeper.go:119-185 | what a message does to any one name: when its connection is ended, reconnected, started or left alone, and to what target and request |
| Targets.HandlingTwice | gateway/connections/zookeeper.go:119-185 | handling a message again leaves the same connections, and disconnects, reconnects and starts nothing iff the message does not remove what it inserts |
| Targets.RequestChangeIsIgnored | gateway/connections/zookeeper.go:144-155 | a target of which only request or meta has changed keeps its old target and request |
| ConnectionStates.SightedMeans | gateway/connections/state.go:344-352 | a target is sighted iff some event since the last drop was an update for it, not rejected, while "*" was asked for |
| ConnectionStates.ConnectionState.HandleUpdate | gateway/connections/state.go:316-386 | for every kind of response: where the update is stored and under which target, what fails, that the connection is connected; `Seen` stays exactly the sighted targets, and synced implies connected |
| ConnectionStates.ConnectionState.Disconnected | gateway/connections/state.go:288-298 | forgets connected, synced and all sightings; the cache is reset iff the query was not for "*" |
| Rejections.MatchPath | gateway/connections/state.go:453-479 | true iff every element wanted is found in its place with its name and keys, an absent key map being different from an empty one |
| Rejections.RejectUpdate | gateway/connections/state.go:439-451 | true iff some update matches some rejection path |
| Rejections.MatchIsTransitive | gateway/connections/state.go:454-479 | matching is transitive |
| Rejections.MatchIsAntisymmetric | gateway/connections/state.go:454-479 | paths that match each other are equal |
| Rejections.MatchSurvivesExtension | gateway/connections/state.go:454-479 | a path that is extended still matches what it matched |
| Rejections.RedundantIffCovered | gateway/connections/state.go:441-451 | leaving out a rejection path changes the verdict on no notification iff another rejection path covers it |
| Loaders.FileTargetLoader.Poll | gateway/loaders/json/json.go:77-98 | a poll that fails sends nothing and keeps `last`; another one inserts the new configuration and removes exactly the names that are gone |
| Loaders.AnnouncementsAreDisjoint | gateway/loaders/json/json.go:83-95 | such a message never removes what it inserts, so handling it twice does nothing the second time |
| Loaders.OnMemberEvent | gateway/loaders/cluster/cluster.go:86-131 | once its messages are handled there is no connection to the member that went, one to the member that came, made unless one to its address was there, and every other name is as it was |
| Convergence.AlwaysConverging | gateway/loaders/json/json.go:77-98 | in every reachable state, failed polls and full channels included, handling what is still on its way leaves under each name what the loader of that name wants now |
| Convergence.Converged | gateway/connections/zookeeper.go:113-184 | when nothing is on its way the connections are those of the loaders' last configurations, each Equal to the latest target |
| Convergence.WishesComeTrue | gateway/connections/zookeeper.go:113-184 | from every reachable state, without another event, what is on its way can be sent and handled, and then there is a connection for exactly the wanted names, with the wanted addresses and credentials |
| Membership.Round | gateway/clustering/zookeeper.go:116-138 | one pass of the watch loop reports exactly the additions and removals between two snapshots, in the code's order |
| Membership.ReportAddsUp | gateway/clustering/zookeeper.go:116-138 | these reports turn the previous members into the snapshot without this member, adding nobody present and removing nobody absent |
| Membership.WatchTellsTheMembers | gateway/clustering/zookeeper.go:85-141 | for every run, errors and lost watches included, all events are sensible and none is about this member; once delivered they add up to the last snapshot, and to the live members while the watch is armed |
| Membership.EndsOnlyWhenCancelled | gateway/clustering/zookeeper.go:89-138 | for every run, the loop has ended only if it was cancelled |
| Membership.PanicsOnlyAfterFour | gateway/clustering/zookeeper.go:90-103 | the loop panics only after four failed reads with no successful one between or after them |
| Membership.WakesUpAndTells | gateway/clustering/zookeeper.go:89-138 | whenever the watch of a loop that is not cancelled has fired, the loop wakes up and reads the members again; once that is delivered, if nothing has changed meanwhile, the callback has been told exactly the other members |
| Membership.NeverStuck | gateway/clustering/zookeeper.go:89-138 | a loop that is not over has a step of its own to take, or waits for a watch that any change of the members fires |
| ParentPaths.Tree.CreatePath | gateway/clustering/zookeeper.go:183-205 | with others creating nodes meanwhile: nothing is removed, the tree stays prefix-closed, and it fails iff an answer was lost; otherwise every ancestor is there |
| ParentPaths.Tree.CreateParentPath | gateway/clustering/zookeeper.go:173-176 | success means that the parent of a well-formed path is there |
| ParentPaths.Tree.Register | gateway/clustering/zookeeper.go:54-75 | registration never fails for a missing parent; it fails iff an answer was lost, the node exists, or the path is malformed, and otherwise the member's node is there |
| ParentPaths.Tree.CreateLockNode | gateway/locking/zookeeper.go:139-158 | the creation in `try`, with its retry after creating the parent: it never fails for a missing parent, whatever Zookeeper calls the protected node, and fails otherwise as Register does; success puts a child of the lock's node in the tree |
| ParentPaths.OneNameMore | gateway/locking/zookeeper.go:189-212 | a name appended to a path makes a child of its node, so the parent made for a lock's prefix is the parent of the protected node |
| ParentPaths.RegistrationIsWellFormedIff | gateway/clustering/zookeeper.go:55 | the registration path is well-formed iff neither the trimmed prefix nor the trimmed member name has an empty part, which an empty prefix has |
| PeerAddresses.MemberAddressInMemberList | gateway/server/server.go:566-583 | true iff a member's address agrees with the caller's, which is not empty, before the first colon |
| PeerAddresses.SameCallerIff | gateway/server/server.go:566-583 | two addresses with ports are taken for the same host iff the hosts agree before their first colon; for hosts without colons, iff they are equal |
| PeerAddresses.NeighboursAreConfused | gateway/server/server.go:566-583 | two different IPv6 hosts that are taken for the same |
| Gateways.Gateway.AddClient | gateway/gateway.go:176-180 | appends a new client with an empty buffer |
| Gateways.Gateway.SendUpdateToClients | gateway/gateway.go:328-340 | each client gets the leaf once, unless it is external and the target is not forwardable; data known from other members only never reaches an external client |
| CoalesceQueue.InsertKeepsOrder | gateway/server/server.go:346-353 | the assumed queue: an insertion keeps the order, adds at the end unless the item waits, and is counted |
| CoalesceQueue.AheadMeans | gateway/server/server.go:475-482 | a leaf is ahead of the marker iff it is at a place of the queue with no marker in front |
| SubscribeSafety.StepKeepsInv | gateway/server/server.go:281-285 | every step of devices, matcher, walk and sender keeps the invariant of a call |
| SubscribeTheorems.NoUpdateIsLost | gateway/server/server.go:142-177 | once the subscriptions are registered, the current version of every permitted leaf they follow is at the client, in the transition buffer, in the queue, in the sender's hand, or before the walk (in an updates-only call: or has not changed since) |
| SubscribeTheorems.DrainedViewIsCurrent | gateway/server/server.go:281-285 | when nothing is under way the client holds the cache's version of each such leaf (in an updates-only call: of each that has changed) |
| SubscribeProgress.EverythingArrives | gateway/server/server.go:281-285 | from every reachable state the call can go on, without another write, until nothing is under way; then the client is synced once and a STREAM client holds the cache's version of each leaf that it follows |
| SubscribeTheorems.NothingElseIsSent | gateway/server/server.go:308-330 | the client holds only permitted leaves that it asked for, never newer than the cache |
| SubscribeTheorems.SyncedOnce | gateway/server/server.go:425 | at most one sync response, exactly one when the walk is over and the queue empty |
| SubscribeTheorems.SyncComesAfterTheWalk | gateway/server/server.go:368-426 | a synced client was sent every permitted leaf that the walk visited, and every selected one that was in the cache when the walk began, at that version or a later one |
| SubscribeTheorems.SyncedClientsHaveTheStart | gateway/server/server.go:368-426 | over any run from the start of the walk to a sync: the client was sent every permitted leaf asked for that was in the cache at that start, at that version or a later one |
| SubscribeTheorems.UpdatesOnlySyncsFirst | gateway/server/server.go:273-285 | an updates-only client is synced before the sender takes any update |
| SubscribeTheorems.LaterChangesArrive | gateway/server/server.go:273-285 | over any run of an updates-only call that leaves nothing under way: what was written after the last subscription was registered is at the client |
| SubscribeTheorems.InsertionsAddUp | gateway/server/server.go:475-482 | insertions are the items taken, their duplicate counts, and what waits |
| SubscribeTheorems.ViewNeverGoesBack | gateway/server/server.go:308-312 | over any run no leaf goes back to an earlier version at the client |
| SubscriptionPaths.KeptCurrentIff | gateway/server/server.go:164-171 | a STREAM client always ends up with all it selects and may see iff its subscriptions with a path select all of that |
| SubscribeServer.Query | gateway/server/server.go:405-418 | inserts the visited leaves that have a value in order, between live updates; on a closed queue it inserts nothing, and fails iff anything is visited after a leaf with a value |
| SubscribeServer.WithinAt | gateway/server/server.go:405-418 | the leaves of a query are found in what was queued at places that follow each other in the same order |
| SubscribeServer.ProcessSubscription | gateway/server/server.go:368-426 | with the matcher queueing live updates meanwhile: succeeds iff the queue is open and all paths can be completed; then what was queued contains each query's leaves in order and the marker comes last; otherwise the queue is closed |
| SubscribeServer.WalkIsAhead | gateway/server/server.go:397-425 | in the queue left by a walk every leaf walked over waits in front of the marker, which is last, live updates between them or not |
| SubscribeServer.StreamClient.SendStreamingResults | gateway/server/server.go:455-529 | takes items in order up to the first that ends the call, if any, and ends as that item demands; every item taken is answered in turn with the value its leaf then has |
| SubscribeServer.StreamClient.AnswerMeans | gateway/server/server.go:308-330 | a marker is answered by a sync response; a leaf by exactly one update with its duplicates if it has a value, that has no prefix or a permitted target and is this gateway's to forward should the client be a member of the cluster; by nothing otherwise |
| SubscribeServer.StreamClient.EndingMeans | gateway/server/server.go:468-523 | the call fails exactly at a leaf without a value, stops silently exactly at one that may not be forwarded to a member of the cluster, finishes exactly at a deletion of the only target asked for, and otherwise goes on |
| SubscribeServer.StreamClient.AnswerInTurn | gateway/server/server.go:468-523 | the answer to each item stands in what is sent, after the answers to the items before it and before those to the items after it |
| SubscribeServer.StreamClient.AnswersAreSafe | gateway/server/server.go:500-511 | every update sent is for a queued item whose value then had no prefix or a target the client has access to; a member of the cluster is sent only what is this gateway's to forward, so nothing that the gateway knows from other members only |
| PrometheusCounters.DeltaCalculator.Calc | gateway/exporters/prometheus/delta.go:37-43 | the change since the last value of this hash, and whether there was one |
| PrometheusCounters.PrometheusExporter.Export | gateway/exporters/prometheus/prometheus.go:66-110 | every counter always shows the sum of the rises between the exported values of its hash, and never goes down |
| PrometheusCounters.PrometheusExporter.CounterCoversTheWay | gateway/exporters/prometheus/prometheus.go:100-105 | a counter is at least its last value minus its first, and equal to that iff its values never dropped |
| PrometheusCounters.RisesCoverTheWay | gateway/exporters/prometheus/delta.go:37-43 | the same of any sequence of values |

## Left out

- gRPC, TLS, dialling, timers, sleeps, logging, metrics, flags and configuration files: plumbing without an invariant.
- The insides of the cache, its tree, the matcher, the coalescing queue, the semaphore, the reconnecting client and the Zookeeper client are not part of this model. Assumed of them: Zookeeper numbers the children of a directory upwards and never reuses a number, a watch fires once, a query visits every leaf that it selects and that is in the cache when it begins, walk and matcher agree on what a path selects, a waiting item is not queued twice.
- LockFlags.FlagMatchesPath: one direction for whole runs; the exact conditions are stated for the steps that make flag and path disagree.
- StaleWatchers.StaleWatcherBreaks: from states in which no other node of the lock is live; with contenders it is one of them that connects.
- SubscribeTheorems.DrainedViewIsCurrent: for updates; deletions of leaves are not part of this model, nor are errors of the stream.
- SubscribeServer.StreamClient.SendStreamingResults: what is forwardable does not change during one stretch of sending. Continued delivery is not claimed: a leaf that is not this gateway's to forward ends the sender for a member of the cluster.
- SubscribeServer.ProcessSubscription: the sender does not take items meanwhile, which is part of the step machine; the limit on concurrent walks only delays a walk.
- SubscribeTheorems.NoUpdateIsLost: the client is not a member of the cluster, whose sender may stop; ONCE with updates_only, which queues nothing but the marker, is part of ProcessSubscription only.
- The checks of a request before Subscribe looks at its mode, and the list of members that is read for them: one error each.
- ZookeeperLock.GetMember: reads the children as they are now; a stale answer can name an earlier holder.
- ConnectLoop.ConnectWithLock: `heads` stands for the moment at which `stopped` is first seen, and the lock and the slots may answer anything; what the lock answers is part of the loops' step machine, whose acts are shown to be lawful in the same sense.
- PrometheusCounters.PrometheusExporter.Export: real numbers instead of floating point, and the hash of name and labels is a parameter; different metrics with equal hashes share a counter. Gauges are left out.
- POLL subscriptions: the markers of successive polls may coalesce in the queue.
- Steps are taken together where no other goroutine can tell: Try reads the connection state, which may be anything, with `lockPath`; Unlock takes the mutex when it reads `lockPath`, and releases it when it lowers the flag.
- `disconnect`, `reconnect` and `unlock` before the first doConnect, when there is no client yet: only their effect on the connections is modelled.
- Which cache errors make handleUpdate fail: whether the cache refuses an update is a parameter.
- The InfluxDB, Kafka and debug exporters, NetBox and YAML configurations, YANG models: thin wrappers.
