/** The two goroutines of a Subscribe call: one walks the cache into the queue, the other empties the queue. */
module SubscribeServer {
  import opened Options
  import opened CoalesceQueue
  import opened ConnectionManagers

  /** What a query came upon: the library may visit a leaf that has no value. */
  datatype Found = Found(leaf: nat, hasValue: bool)

  /** The notification in a leaf: its target, whether it has a prefix, and whether it deletes the whole target. */
  datatype Notification = Notification(target: string, hasPrefix: bool, deletesTarget: bool)

  datatype Response = Update(leaf: nat, dup: nat) | SyncResponse

  /** The sender waits for more, has reported an error, ended the call without one, or stopped without a word. */
  datatype End = Waiting | Failed | Finished | Silent

  class CoalescingQueue {
    var items: Queue
    var closed: bool

    constructor ()
      ensures items == [] && !closed
    {
      items, closed := [], false;
    }

    method Insert(i: Item) returns (ok: bool)
      modifies this`items
      ensures ok == !closed
      ensures items == if closed then old(items) else CoalesceQueue.Insert(old(items), i)
    {
      ok := !closed;
      if !closed {
        items := CoalesceQueue.Insert(items, i);
      }
    }

    method Close()
      modifies this`closed
      ensures closed
    {
      closed := true;
    }
  }

  /** The leaves that the queries of a call came upon, in order. */
  function Values(found: seq<Found>): seq<nat> {
    if found == [] then []
    else if found[|found| - 1].hasValue then Values(found[..|found| - 1]) + [found[|found| - 1].leaf]
    else Values(found[..|found| - 1])
  }

  lemma {:induction false} ValuesMeans(found: seq<Found>, leaf: nat)
    ensures leaf in Values(found) <==> exists f <- found :: f.hasValue && f.leaf == leaf
  {
    if found != [] {
      var before, last := found[..|found| - 1], found[|found| - 1];
      assert found == before + [last];
      ValuesMeans(before, leaf);
    }
  }

  function InsertAll(q: Queue, leaves: seq<nat>): Queue {
    if leaves == [] then q else Insert(InsertAll(q, leaves[..|leaves| - 1]), Leaf(leaves[|leaves| - 1]))
  }

  lemma {:induction false} InsertAllInParts(q: Queue, a: seq<nat>, b: seq<nat>)
    ensures InsertAll(q, a + b) == InsertAll(InsertAll(q, a), b)
  {
    if b == [] {
      assert a + b == a;
    } else {
      InsertAllInParts(q, a, b[..|b| - 1]);
      assert (a + b)[..|a + b| - 1] == a + b[..|b| - 1];
    }
  }

  lemma {:induction false} InsertAllAhead(q: Queue, leaves: seq<nat>, leaf: nat)
    requires !Waits(q, SyncMarker) && (leaf in leaves || Waits(q, Leaf(leaf)))
    ensures Ahead(InsertAll(q, leaves), leaf) && !Waits(InsertAll(q, leaves), SyncMarker)
  {
    if leaves == [] {
      AllAhead(q, leaf);
    } else {
      var n := |leaves| - 1;
      var before := InsertAll(q, leaves[..n]);
      assert leaf in leaves ==> leaf in leaves[..n] || leaf == leaves[n];
      if leaf in leaves[..n] || Waits(q, Leaf(leaf)) {
        InsertAllAhead(q, leaves[..n], leaf);
      } else {
        NoMarkerInserted(q, leaves[..n]);
      }
      AheadAfterInsert(before, Leaf(leaves[n]), leaf);
      WaitsAfterInsert(before, Leaf(leaves[n]), SyncMarker);
    }
  }

  lemma {:induction false} NoMarkerInserted(q: Queue, leaves: seq<nat>)
    ensures Waits(InsertAll(q, leaves), SyncMarker) == Waits(q, SyncMarker)
  {
    if leaves != [] {
      NoMarkerInserted(q, leaves[..|leaves| - 1]);
      WaitsAfterInsert(InsertAll(q, leaves[..|leaves| - 1]), Leaf(leaves[|leaves| - 1]), SyncMarker);
    }
  }

  /** The queue after a walk and its marker: everything walked over waits in front of the marker, which is last. */
  lemma WalkComesBeforeMarker(q: Queue, leaves: seq<nat>)
    requires !Waits(q, SyncMarker)
    ensures var done := Insert(InsertAll(q, leaves), SyncMarker);
            && done != [] && done[|done| - 1] == Entry(SyncMarker, 0)
            && forall l <- leaves :: Ahead(done, l)
  {
    var walked := InsertAll(q, leaves);
    NoMarkerInserted(q, leaves);
    InsertKeepsOrder(walked, SyncMarker);
    forall l <- leaves
      ensures Ahead(Insert(walked, SyncMarker), l)
    {
      InsertAllAhead(q, leaves, l);
      AheadAfterInsert(walked, SyncMarker, l);
    }
  }

  /** `part` is found in `whole`, in its order. */
  predicate Within(part: seq<nat>, whole: seq<nat>) {
    part == [] ||
    (whole != [] &&
     (Within(part, whole[..|whole| - 1]) ||
      (part[|part| - 1] == whole[|whole| - 1] && Within(part[..|part| - 1], whole[..|whole| - 1]))))
  }

  lemma {:induction false} WithinMore(part: seq<nat>, whole: seq<nat>, more: seq<nat>)
    requires Within(part, whole)
    ensures Within(part, whole + more)
  {
    if more == [] {
      assert whole + more == whole;
    } else {
      WithinMore(part, whole, more[..|more| - 1]);
      assert (whole + more)[..|whole + more| - 1] == whole + more[..|more| - 1];
    }
  }

  lemma WithinOneMore(part: seq<nat>, whole: seq<nat>, leaf: nat)
    requires Within(part, whole)
    ensures Within(part + [leaf], whole + [leaf])
  {
    assert (part + [leaf])[..|part|] == part && (whole + [leaf])[..|whole|] == whole;
  }

  lemma {:induction false} WithinIsIn(part: seq<nat>, whole: seq<nat>)
    requires Within(part, whole)
    ensures forall l <- part :: l in whole
  {
    if part != [] {
      if Within(part, whole[..|whole| - 1]) {
        WithinIsIn(part, whole[..|whole| - 1]);
      } else {
        WithinIsIn(part[..|part| - 1], whole[..|whole| - 1]);
        assert part == part[..|part| - 1] + [part[|part| - 1]];
      }
    }
  }

  /** The places at which a part is found, one after the other. */
  lemma {:induction false} WithinAt(part: seq<nat>, whole: seq<nat>) returns (at: seq<nat>)
    requires Within(part, whole)
    ensures |at| == |part| && forall k :: 0 <= k < |at| ==> at[k] < |whole| && whole[at[k]] == part[k]
    ensures forall j, k :: 0 <= j < k < |at| ==> at[j] < at[k]
  {
    if part == [] {
      at := [];
    } else if Within(part, whole[..|whole| - 1]) {
      at := WithinAt(part, whole[..|whole| - 1]);
    } else {
      at := WithinAt(part[..|part| - 1], whole[..|whole| - 1]);
      at := at + [|whole| - 1];
    }
  }

  /** Every leaf that was inserted waits. */
  lemma {:induction false} InsertedWaits(q: Queue, leaves: seq<nat>, leaf: nat)
    ensures Waits(InsertAll(q, leaves), Leaf(leaf)) <==> Waits(q, Leaf(leaf)) || leaf in leaves
  {
    if leaves != [] {
      var n := |leaves| - 1;
      InsertedWaits(q, leaves[..n], leaf);
      WaitsAfterInsert(InsertAll(q, leaves[..n]), Leaf(leaves[n]), Leaf(leaf));
      assert leaf in leaves <==> leaf in leaves[..n] || leaf == leaves[n];
    }
  }

  lemma FoundWaits(q: Queue, found: seq<Found>, all: seq<nat>)
    requires Within(Values(found), all)
    ensures forall f <- found | f.hasValue :: exists e <- InsertAll(q, all) :: e.item == Leaf(f.leaf)
  {
    WithinIsIn(Values(found), all);
    forall f <- found | f.hasValue
      ensures exists e <- InsertAll(q, all) :: e.item == Leaf(f.leaf)
    {
      ValuesMeans(found, f.leaf);
      InsertedWaits(q, all, f.leaf);
      WaitsMeans(InsertAll(q, all), Leaf(f.leaf));
    }
  }

  /** The matcher may queue live updates meanwhile. */
  method Matcher(queue: CoalescingQueue) returns (ghost live: seq<nat>)
    modifies queue`items
    ensures queue.items == if queue.closed then old(queue.items) else InsertAll(old(queue.items), live)
  {
    live := [];
    var rounds: int := *;
    while rounds > 0
      invariant queue.items == if queue.closed then old(queue.items) else InsertAll(old(queue.items), live)
    {
      var leaf: nat := 0;
      var n: int := *;
      if n >= 0 {
        leaf := n;
      }
      var ok := queue.Insert(Leaf(leaf));
      assert (live + [leaf])[..|live|] == live;
      live := live + [leaf];
      rounds := rounds - 1;
    }
  }

  lemma OneMoreFound(found: seq<Found>, i: nat)
    requires i < |found|
    ensures Values(found[..i + 1]) ==
      if found[i].hasValue then Values(found[..i]) + [found[i].leaf] else Values(found[..i])
  {
    assert found[..i + 1][..i] == found[..i];
  }

  lemma OneMoreInsertion(q: Queue, leaves: seq<nat>, leaf: nat)
    ensures InsertAll(q, leaves + [leaf]) == Insert(InsertAll(q, leaves), Leaf(leaf))
  {
    assert (leaves + [leaf])[..|leaves|] == leaves;
  }

  lemma NothingYet(q: Queue, found: seq<Found>)
    ensures InsertAll(q, []) == q && Within(Values(found[..0]), [])
  {
  }

  /** One query of the cache: it stops when an earlier insertion failed, but forgets a failure of its last one.  `all` is
      what was queued meanwhile, live updates included. */
  method Query(queue: CoalescingQueue, found: seq<Found>) returns (ok: bool, ghost all: seq<nat>)
    modifies queue`items
    ensures queue.items == if queue.closed then old(queue.items) else InsertAll(old(queue.items), all)
    ensures !queue.closed ==> Within(Values(found), all)
    ensures !queue.closed ==> forall f <- found | f.hasValue :: exists e <- queue.items :: e.item == Leaf(f.leaf)
    ensures ok <==> !queue.closed || forall j :: 0 <= j < |found| - 1 ==> !found[j].hasValue
  {
    hide Values, Within, InsertAll, Insert;
    ok, all := true, [];
    NothingYet(queue.items, found);
    for i := 0 to |found|
      invariant queue.items == if queue.closed then old(queue.items) else InsertAll(old(queue.items), all)
      invariant !queue.closed ==> ok && Within(Values(found[..i]), all)
      invariant queue.closed ==> (ok <==> forall j :: 0 <= j < i ==> !found[j].hasValue)
      invariant queue.closed ==> forall j :: 0 <= j < i - 1 ==> !found[j].hasValue
    {
      ghost var live := Matcher(queue);
      InsertAllInParts(old(queue.items), all, live);
      if !queue.closed {
        WithinMore(Values(found[..i]), all, live);
      }
      all := all + live;
      if !ok {
        return;
      }
      OneMoreFound(found, i);
      if found[i].hasValue {
        ok := queue.Insert(Leaf(found[i].leaf));
        if !queue.closed {
          WithinOneMore(Values(found[..i]), all, found[i].leaf);
        }
        OneMoreInsertion(old(queue.items), all, found[i].leaf);
        all := all + [found[i].leaf];
      }
    }
    assert found[..|found|] == found;
    if !queue.closed {
      FoundWaits(old(queue.items), found, all);
    }
    ok := true;
  }

  /** Queues what the queries came upon and then the marker, between live updates.  `queries` holds None for a path that
      cannot be completed; such a path, or a closed queue, ends the walk with an error and closes the queue. */
  method ProcessSubscription(queue: CoalescingQueue, updatesOnly: bool, queries: seq<Option<seq<Found>>>)
    returns (ok: bool, ghost all: seq<nat>)
    modifies queue
    ensures ok <==> !old(queue.closed) && (updatesOnly || forall q <- queries :: q.Some?)
    ensures ok ==> !queue.closed
    ensures ok ==> queue.items == Insert(InsertAll(old(queue.items), all), SyncMarker)
    ensures ok && !updatesOnly ==> WalkedIn(queries, all)
    ensures !ok ==> queue.closed
    ensures old(queue.closed) ==> queue.items == old(queue.items)
  {
    ok, all := true, [];
    if !updatesOnly {
      for i := 0 to |queries|
        invariant queue.closed == old(queue.closed)
        invariant queue.items == if queue.closed then old(queue.items) else InsertAll(old(queue.items), all)
        invariant forall q <- queries[..i] :: q.Some?
        invariant !queue.closed ==> ok && WalkedIn(queries[..i], all)
      {
        if queries[i].None? {
          assert queries[i] in queries;
          ok := false;
          queue.Close();
          return;
        }
        ghost var more;
        ok, more := Query(queue, queries[i].value);
        if !ok {
          queue.Close();
          return;
        }
        WalkedFurther(queries, i, all, more, queue.closed);
        InsertAllInParts(old(queue.items), all, more);
        all := all + more;
      }
      assert queries[..|queries|] == queries;
    }
    ghost var last := Matcher(queue);
    InsertAllInParts(old(queue.items), all, last);
    WalkedInMore(queries, all, last);
    all := all + last;
    ok := queue.Insert(SyncMarker);
    if !ok {
      queue.Close();
    }
  }

  /** The queries' leaves are found in what was queued, query by query. */
  predicate WalkedIn(queries: seq<Option<seq<Found>>>, all: seq<nat>) {
    forall q <- queries | q.Some? :: Within(Values(q.value), all)
  }

  lemma WalkedInMore(queries: seq<Option<seq<Found>>>, all: seq<nat>, more: seq<nat>)
    ensures WalkedIn(queries, all) ==> WalkedIn(queries, all + more)
  {
    if WalkedIn(queries, all) {
      forall q <- queries | q.Some?
        ensures Within(Values(q.value), all + more)
      {
        WithinMore(Values(q.value), all, more);
      }
    }
  }

  lemma WithinLater(part: seq<nat>, before: seq<nat>, whole: seq<nat>)
    requires Within(part, whole)
    ensures Within(part, before + whole)
    decreases whole
  {
    if part != [] {
      var n := |whole| - 1;
      assert (before + whole)[..|before + whole| - 1] == before + whole[..n];
      if Within(part, whole[..n]) {
        WithinLater(part, before, whole[..n]);
      } else {
        WithinLater(part[..|part| - 1], before, whole[..n]);
      }
    }
  }

  lemma WalkedFurther(queries: seq<Option<seq<Found>>>, i: nat, all: seq<nat>, more: seq<nat>, closed: bool)
    requires i < |queries| && queries[i].Some?
    requires !closed ==> WalkedIn(queries[..i], all) && Within(Values(queries[i].value), more)
    ensures !closed ==> WalkedIn(queries[..i + 1], all + more)
    ensures (forall q <- queries[..i] :: q.Some?) ==> forall q <- queries[..i + 1] :: q.Some?
  {
    assert queries[..i + 1] == queries[..i] + [queries[i]];
    if !closed {
      WalkedInMore(queries[..i], all, more);
      WithinLater(Values(queries[i].value), all, more);
    }
  }

  /** So everything walked over waits in front of the marker, which is last. */
  lemma WalkIsAhead(q: Queue, queries: seq<Option<seq<Found>>>, all: seq<nat>)
    requires !Waits(q, SyncMarker) && WalkedIn(queries, all)
    ensures var done := Insert(InsertAll(q, all), SyncMarker);
            && done != [] && done[|done| - 1] == Entry(SyncMarker, 0)
            && forall query <- queries | query.Some? :: forall l <- Values(query.value) :: Ahead(done, l)
    ensures var done := Insert(InsertAll(q, all), SyncMarker);
            forall query <- queries | query.Some? :: forall f <- query.value | f.hasValue ::
              exists k :: 0 <= k < |done| && done[k].item == Leaf(f.leaf) && forall j :: 0 <= j < k ==> done[j].item != SyncMarker
  {
    WalkComesBeforeMarker(q, all);
    var done := Insert(InsertAll(q, all), SyncMarker);
    forall query <- queries | query.Some?
      ensures forall l <- Values(query.value) :: l in all
    {
      WithinIsIn(Values(query.value), all);
    }
    forall query <- queries | query.Some?
      ensures forall f <- query.value | f.hasValue :: exists k ::
                0 <= k < |done| && done[k].item == Leaf(f.leaf) && forall j :: 0 <= j < k ==> done[j].item != SyncMarker
    {
      forall f <- query.value | f.hasValue
        ensures exists k ::
                  0 <= k < |done| && done[k].item == Leaf(f.leaf) && forall j :: 0 <= j < k ==> done[j].item != SyncMarker
      {
        ValuesMeans(query.value, f.leaf);
        assert Ahead(done, f.leaf);
        AheadMeans(done, f.leaf);
      }
    }
  }

  class StreamClient {
    const queue: CoalescingQueue
    const connMgr: ConnectionManager
    const clusterMember: bool
    const target: string
    const permitted: set<string>
    var sent: seq<Response>

    constructor (queue: CoalescingQueue, connMgr: ConnectionManager, clusterMember: bool, target: string,
                 permitted: set<string>)
      ensures this.queue == queue && this.connMgr == connMgr && this.clusterMember == clusterMember
      ensures this.target == target && this.permitted == permitted && sent == []
    {
      this.queue, this.connMgr, this.clusterMember := queue, connMgr, clusterMember;
      this.target, this.permitted, sent := target, permitted, [];
    }

    /** The client may be sent this notification: a member of the cluster only what is this gateway's to forward. */
    ghost predicate MaySend(n: Notification)
      reads connMgr, connMgr.connections.Values
    {
      && (clusterMember ==> connMgr.MayForward(n.target))
      && (n.hasPrefix ==> n.target in permitted)
    }

    /** How the call ends with this item; the sender goes on if it is Waiting. */
    ghost function Ending(i: Item, values: map<nat, Notification>): End
      reads connMgr, connMgr.connections.Values
    {
      if i.SyncMarker? then Waiting
      else if i.leaf !in values then Failed
      else if clusterMember && !connMgr.MayForward(values[i.leaf].target) then Silent
      else if values[i.leaf].deletesTarget && target != "*" then Finished
      else Waiting
    }

    /** What the client is sent for an item: a sync response for a marker, an update for a leaf that may be sent. */
    ghost function Answer(e: Entry, values: map<nat, Notification>): seq<Response>
      reads connMgr, connMgr.connections.Values
    {
      if e.item.SyncMarker? then [SyncResponse]
      else if e.item.leaf in values && MaySend(values[e.item.leaf]) then [Update(e.item.leaf, e.dup)]
      else []
    }

    /** The answers to the first items, if `values[k]` is what the leaves hold when the item at `k` is sent. */
    ghost function Answers(items: Queue, values: seq<map<nat, Notification>>): seq<Response>
      requires |items| <= |values|
      reads connMgr, connMgr.connections.Values
    {
      if items == [] then []
      else Answers(items[..|items| - 1], values) + Answer(items[|items| - 1], values[|items| - 1])
    }

    method Send(e: Entry, values: map<nat, Notification>) returns (end: End)
      requires connMgr.Valid()
      modifies this`sent
      ensures sent == old(sent) + Answer(e, values)
      ensures end == Ending(e.item, values)
    {
      if e.item.SyncMarker? {
        sent := sent + [SyncResponse];
        return Waiting;
      }
      if e.item.leaf !in values {
        return Failed;
      }
      var n := values[e.item.leaf];
      if clusterMember {
        var forwardable := connMgr.Forwardable(n.target);
        if !forwardable {
          return Silent;
        }
      }
      if !n.hasPrefix || n.target in permitted {
        sent := sent + [Update(e.item.leaf, e.dup)];
      }
      end := if n.deletesTarget && target != "*" then Finished else Waiting;
    }

    /** Empties the queue; `values[k]` is what the leaves hold when the item at `k` is sent.  `taken` items are taken:
        all of them, unless one ends the call.  Each is answered in its turn. */
    method SendStreamingResults(values: seq<map<nat, Notification>>) returns (end: End, taken: nat)
      requires connMgr.Valid() && |queue.items| <= |values|
      modifies this`sent, queue`items
      ensures taken <= |old(queue.items)| && queue.items == old(queue.items)[taken..]
      ensures sent == old(sent) + Answers(old(queue.items)[..taken], values)
      ensures forall k :: 0 <= k < taken - 1 ==> Ending(old(queue.items)[k].item, values[k]) == Waiting
      ensures if taken > 0 && Ending(old(queue.items)[taken - 1].item, values[taken - 1]) != Waiting
              then end == Ending(old(queue.items)[taken - 1].item, values[taken - 1])
              else taken == |old(queue.items)| && end == if queue.closed then Finished else Waiting
    {
      hide *;
      ghost var all := queue.items;
      taken, end := 0, Waiting;
      NoAnswers(values);
      while queue.items != []
        invariant taken <= |all| && queue.items == all[taken..]
        invariant sent == old(sent) + Answers(all[..taken], values)
        invariant forall k :: 0 <= k < taken ==> Ending(all[k].item, values[k]) == Waiting
        decreases |all| - taken
      {
        var e := queue.items[0];
        queue.items := queue.items[1..];
        OneMoreAnswer(all, values, taken);
        end := Send(e, values[taken]);
        taken := taken + 1;
        if end != Waiting {
          return;
        }
      }
      assert all[..taken] == all;
      end := if queue.closed then Finished else Waiting;
    }

    lemma NoAnswers(values: seq<map<nat, Notification>>)
      ensures Answers([], values) == []
    {
    }

    lemma OneMoreAnswer(all: Queue, values: seq<map<nat, Notification>>, k: nat)
      requires k < |all| <= |values|
      ensures Answers(all[..k + 1], values) == Answers(all[..k], values) + Answer(all[k], values[k])
    {
      assert all[..k + 1][..k] == all[..k];
    }

    /** A marker is answered by a sync response.  A leaf is answered by exactly one update, with the item's duplicates, if
        it has a value that is this gateway's to forward, should the client be a member of the cluster, and that has no
        prefix or a permitted target; otherwise it is not answered. */
    lemma AnswerMeans(e: Entry, values: map<nat, Notification>)
      ensures e.item.SyncMarker? ==> Answer(e, values) == [SyncResponse]
      ensures e.item.Leaf? ==>
        if && e.item.leaf in values
           && (clusterMember ==> connMgr.MayForward(values[e.item.leaf].target))
           && (values[e.item.leaf].hasPrefix ==> values[e.item.leaf].target in permitted)
        then Answer(e, values) == [Update(e.item.leaf, e.dup)]
        else Answer(e, values) == []
    {
    }

    /** The call goes on after a marker, and after a leaf with a value unless that may not be forwarded to a member of the
        cluster or deletes the only target that was asked for. */
    lemma EndingMeans(i: Item, values: map<nat, Notification>)
      ensures Ending(i, values) == Failed <==> i.Leaf? && i.leaf !in values
      ensures Ending(i, values) == Silent <==>
        i.Leaf? && i.leaf in values && clusterMember && !connMgr.MayForward(values[i.leaf].target)
      ensures Ending(i, values) == Finished <==>
        && i.Leaf? && i.leaf in values && (clusterMember ==> connMgr.MayForward(values[i.leaf].target))
        && values[i.leaf].deletesTarget && target != "*"
    {
    }

    /** Every item is answered in its turn, between the answers to those before it and those after it. */
    lemma {:induction false} AnswerInTurn(items: Queue, values: seq<map<nat, Notification>>, k: nat)
      requires |items| <= |values| && k < |items|
      ensures exists rest :: Answers(items, values) == Answers(items[..k], values) + Answer(items[k], values[k]) + rest
      ensures |Answers(items[..k], values)| <= k
    {
      hide Answer;
      var n := |items| - 1;
      ShortAnswers(items[..k], values);
      if k == n {
        assert Answers(items, values) == Answers(items[..k], values) + Answer(items[k], values[k]) + [];
      } else {
        AnswerInTurn(items[..n], values, k);
        assert items[..n][..k] == items[..k];
        var rest :| Answers(items[..n], values) == Answers(items[..k], values) + Answer(items[k], values[k]) + rest;
        assert Answers(items, values)
            == Answers(items[..k], values) + Answer(items[k], values[k]) + (rest + Answer(items[n], values[n]));
      }
    }

    lemma {:induction false} ShortAnswers(items: Queue, values: seq<map<nat, Notification>>)
      requires |items| <= |values|
      ensures |Answers(items, values)| <= |items|
    {
      if items != [] {
        ShortAnswers(items[..|items| - 1], values);
      }
    }

    /** Every update sent is for an item, and for a leaf whose value was permitted when it was sent; a member of the
        cluster is sent only what may be forwarded, and so nothing that this gateway knows from other members only. */
    lemma {:induction false} AnswersAreSafe(items: Queue, values: seq<map<nat, Notification>>)
      requires |items| <= |values|
      ensures forall a <- Answers(items, values) :: a.Update? ==>
        exists k ::
          && 0 <= k < |items| && items[k] == Entry(Leaf(a.leaf), a.dup) && a.leaf in values[k]
          && (values[k][a.leaf].hasPrefix ==> values[k][a.leaf].target in permitted)
          && (clusterMember ==> connMgr.MayForward(values[k][a.leaf].target))
          && (clusterMember ==> !connMgr.KnownFromPeersOnly(values[k][a.leaf].target))
    {
      if items != [] {
        var n := |items| - 1;
        AnswersAreSafe(items[..n], values);
        forall a <- Answers(items, values) | a.Update?
          ensures exists k ::
                    && 0 <= k < |items| && items[k] == Entry(Leaf(a.leaf), a.dup) && a.leaf in values[k]
                    && (values[k][a.leaf].hasPrefix ==> values[k][a.leaf].target in permitted)
                    && (clusterMember ==> connMgr.MayForward(values[k][a.leaf].target))
                    && (clusterMember ==> !connMgr.KnownFromPeersOnly(values[k][a.leaf].target))
        {
          if a in Answer(items[n], values[n]) {
            assert items[n] == Entry(Leaf(a.leaf), a.dup) && a.leaf in values[n];
          } else {
            var k :| 0 <= k < n && items[..n][k] == Entry(Leaf(a.leaf), a.dup) && a.leaf in values[k]
              && (values[k][a.leaf].hasPrefix ==> values[k][a.leaf].target in permitted)
              && (clusterMember ==> connMgr.MayForward(values[k][a.leaf].target));
            assert items[k] == Entry(Leaf(a.leaf), a.dup);
          }
        }
      }
    }
  }
}
