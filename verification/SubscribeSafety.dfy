/** What every step of a Subscribe call keeps. */
module SubscribeSafety {
  import opened Options
  import opened CoalesceQueue
  import opened SubscribeProtocol

  /** Everything queued for the client is a leaf of the cache that its request selects. */
  predicate KnownItem(r: Request, s: State, leaf: nat) {
    Waits(s.call.queue, Leaf(leaf)) || s.call.sender == Took(leaf) || (s.call.sender.Read? && s.call.sender.leaf == leaf)
    ==> leaf in s.feed.cache && Selects(r, 0, leaf)
  }

  /** The phases of a call follow each other as its mode says. */
  predicate Phases(r: Request, c: Call) {
    && c.listening <= |r.subscriptions|
    && (r.mode.Once? ==> c.listening == 0)
    && (r.mode.Stream? && c.listening < |r.subscriptions| ==> c.walk.NotBegun?)
    && (r.mode.UpdatesOnly? ==> c.walk.NotBegun?)
    && (c.walk.Walking? ==> c.walk.next <= |r.subscriptions|)
    && Unique(c.queue)
  }

  /** One sync marker is queued: when the walk ends, or when an updates-only call opens. */
  predicate OneMarker(r: Request, s: State) {
    s.client.syncs + (if Waits(s.call.queue, SyncMarker) then 1 else 0)
      == if r.mode.UpdatesOnly? || s.call.walk.Walked? then 1 else 0
  }

  /** Until the client of an updates-only call is synced, the marker is first in its queue. */
  predicate MarkerFirst(r: Request, s: State) {
    r.mode.UpdatesOnly? && s.client.syncs == 0 ==>
      && s.call.sender.Idle? && s.client.sent == map[]
      && s.call.queue != [] && s.call.queue[0].item.SyncMarker?
  }

  /** The client holds nothing that is not permitted, selected and in the cache, and nothing newer than the cache;
      what the sender has read is no older than what the client holds. */
  predicate ViewIsBehind(r: Request, s: State, leaf: nat) {
    && (leaf in s.client.sent ==>
          && leaf in r.permitted && Selects(r, 0, leaf)
          && leaf in s.feed.cache && s.client.sent[leaf] <= s.feed.cache[leaf])
    && (s.call.sender.Read? && s.call.sender.leaf == leaf ==>
          && leaf in s.feed.cache && s.call.sender.version <= s.feed.cache[leaf]
          && (leaf in s.client.sent ==> s.client.sent[leaf] <= s.call.sender.version))
  }

  /** Every insertion into the queue waits, or was accounted for by an item that the sender took. */
  predicate Counted(s: State) {
    s.history.inserted == s.history.accounted + Total(s.call.queue)
  }

  /** The current version of the leaf is still to be put in the queue, waits there, or is about to be sent. */
  predicate UnderWay(s: State, leaf: nat)
    requires leaf in s.feed.cache
  {
    || leaf in s.feed.storing || leaf in s.feed.buffer || s.feed.pulled == Some(leaf)
    || Waits(s.call.queue, Leaf(leaf)) || s.call.sender == Took(leaf)
    || s.call.sender == Read(leaf, s.feed.cache[leaf])
  }

  /** The initial walk has yet to come to the leaf. */
  predicate Unwalked(r: Request, c: Call, leaf: nat) {
    && r.mode.Stream?
    && match c.walk
       case NotBegun => true
       case Walking(next, left) => leaf in left || Selects(r, next, leaf)
       case Walked => false
  }

  /** An updates-only call owes only what has changed since its last subscription was registered. */
  predicate Unchanged(r: Request, s: State, leaf: nat)
    requires leaf in s.feed.cache
  {
    r.mode.UpdatesOnly? && leaf in s.history.floor && s.history.floor[leaf] == s.feed.cache[leaf]
  }

  predicate Current(s: State, leaf: nat)
    requires leaf in s.feed.cache
  {
    leaf in s.client.sent && s.client.sent[leaf] == s.feed.cache[leaf]
  }

  /** A leaf that the client is to be sent the updates of. */
  predicate Followed(r: Request, s: State, leaf: nat) {
    && leaf in s.feed.cache && leaf in r.permitted && Follows(r, |r.subscriptions|, leaf)
    && !r.mode.Once? && s.call.listening == |r.subscriptions|
  }

  /** No update of the leaf is lost. */
  predicate NotLost(r: Request, s: State, leaf: nat) {
    Followed(r, s, leaf) ==>
      Current(s, leaf) || UnderWay(s, leaf) || Unwalked(r, s.call, leaf) || Unchanged(r, s, leaf)
  }

  /** What the walk has visited was sent at the version visited or a later one, is about to be, or waits in front
      of the marker. */
  predicate Owed(r: Request, s: State, leaf: nat) {
    leaf in s.history.visited && leaf in r.permitted ==>
      || (leaf in s.client.sent && s.history.visited[leaf] <= s.client.sent[leaf])
      || s.call.sender == Took(leaf)
      || (s.call.sender.Read? && s.call.sender.leaf == leaf && s.history.visited[leaf] <= s.call.sender.version)
      || Ahead(s.call.queue, leaf)
  }

  /** No visit is from the future. */
  predicate VisitedBehind(s: State, leaf: nat) {
    leaf in s.history.visited ==>
      leaf in s.feed.cache && s.history.visited[leaf] <= s.feed.cache[leaf] && !s.call.walk.NotBegun?
  }

  /** What was in the cache when the walk began it has visited, or must still visit. */
  predicate WalkedOver(r: Request, s: State, leaf: nat) {
    leaf in s.history.start ==>
      && !s.call.walk.NotBegun?
      && leaf in s.feed.cache && s.history.start[leaf] <= s.feed.cache[leaf]
      && (Selects(r, 0, leaf) ==>
            || (s.call.walk.Walking? && (leaf in s.call.walk.left || Selects(r, s.call.walk.next, leaf)))
            || (leaf in s.history.visited && s.history.start[leaf] <= s.history.visited[leaf]))
  }

  /** A synced client holds what the walk visited. */
  predicate Delivered(r: Request, s: State, leaf: nat) {
    s.client.syncs > 0 && leaf in s.history.visited && leaf in r.permitted ==>
      leaf in s.client.sent && s.history.visited[leaf] <= s.client.sent[leaf]
  }

  predicate LeafInv(r: Request, s: State, leaf: nat) {
    && KnownItem(r, s, leaf) && ViewIsBehind(r, s, leaf) && NotLost(r, s, leaf)
    && Owed(r, s, leaf) && VisitedBehind(s, leaf) && WalkedOver(r, s, leaf) && Delivered(r, s, leaf)
  }

  ghost predicate Inv(r: Request, s: State) {
    && KnownFeed(s.feed) && Phases(r, s.call) && OneMarker(r, s) && MarkerFirst(r, s) && Counted(s)
    && (forall l: nat :: LeafInv(r, s, l))
  }

  lemma {:induction false} SelectedFromStart(r: Request, n: nat, leaf: nat)
    requires Selects(r, n, leaf)
    ensures Selects(r, 0, leaf)
  {
    if n > 0 {
      SelectedFromStart(r, n - 1, leaf);
    }
  }

  /** What is to be followed is to be walked over. */
  lemma {:induction false} FollowedIsSelected(r: Request, n: nat, leaf: nat)
    requires Follows(r, n, leaf)
    ensures Selects(r, 0, leaf)
  {
    if r.subscriptions[n - 1].hasPath && leaf in r.subscriptions[n - 1].leaves {
      SelectedFromStart(r, n - 1, leaf);
    } else {
      FollowedIsSelected(r, n - 1, leaf);
    }
  }

  lemma InsertedIsKnown(r: Request, s: State, e: Step, leaf: nat)
    requires Enabled(r, s, e) && Insertion(r, s, e) == Some(Leaf(leaf)) && KnownFeed(s.feed)
    ensures leaf in s.feed.cache && Selects(r, 0, leaf)
  {
    hide Selects, Follows;
    if e.Match? {
      FollowedIsSelected(r, s.call.listening, leaf);
    } else {
      Selected(r, s.call.walk.next - 1, leaf);
    }
  }

  lemma Selected(r: Request, n: nat, leaf: nat)
    requires n < |r.subscriptions| && leaf in r.subscriptions[n].leaves
    ensures Selects(r, 0, leaf)
  {
    SelectedFromStart(r, n, leaf);
  }

  /** What waits after a step: what was inserted, and what waited and was not taken. */
  lemma WaitsAfter(r: Request, s: State, e: Step, i: Item)
    requires Enabled(r, s, e) && Unique(s.call.queue)
    ensures Waits(QueueAfter(r, s, e), i) <==>
      || Insertion(r, s, e) == Some(i)
      || (Waits(s.call.queue, i) && !(e.Take? && s.call.queue[0].item == i))
  {
    hide Waits, Unique, Insert, Follows;
    var j := Insertion(r, s, e);
    if j.Some? {
      WaitsAfterInsert(s.call.queue, j.value, i);
    } else if e.Take? {
      WaitsAfterTake(s.call.queue, i);
    }
  }

  lemma FeedStaysKnown(f: Feed, e: Step)
    requires KnownFeed(f) && (e.Push? ==> e.leaf in f.storing)
    ensures KnownFeed(FeedAfter(f, e))
  {
    if e.Pull? && f.buffer != [] {
      assert f.buffer[0] in f.buffer;
    }
  }

  lemma StepKeepsPhases(r: Request, s: State, e: Step)
    requires Enabled(r, s, e) && Phases(r, s.call)
    ensures Phases(r, Apply(r, s, e).call)
  {
    hide Insert, Waits, Selects, Follows;
    var i := Insertion(r, s, e);
    if i.Some? {
      UniqueAfterInsert(s.call.queue, i.value);
    }
  }

  lemma StepKeepsMarkers(r: Request, s: State, e: Step)
    requires Enabled(r, s, e) && Phases(r, s.call) && OneMarker(r, s) && MarkerFirst(r, s)
    ensures OneMarker(r, Apply(r, s, e)) && MarkerFirst(r, Apply(r, s, e))
  {
    hide Insert, Selects, Follows, Unique, HistoryAfter, FeedAfter;
    WaitsAfter(r, s, e, SyncMarker);
    var i := Insertion(r, s, e);
    if i.Some? {
      InsertKeepsOrder(s.call.queue, i.value);
    }
  }

  lemma StepKeepsCount(r: Request, s: State, e: Step)
    requires Enabled(r, s, e) && Counted(s)
    ensures Counted(Apply(r, s, e))
  {
    hide Insert, Selects, Follows, Waits, Unique, ClientAfter, FeedAfter, WalkAfter, SenderAfter;
    var i := Insertion(r, s, e);
    if i.Some? {
      InsertKeepsOrder(s.call.queue, i.value);
    }
  }

  lemma StepKeepsKnown(r: Request, s: State, e: Step, leaf: nat)
    requires Enabled(r, s, e) && Unique(s.call.queue) && KnownFeed(s.feed) && KnownItem(r, s, leaf)
    ensures KnownItem(r, Apply(r, s, e), leaf)
  {
    hide Insert, Selects, Follows, Unique, HistoryAfter, ClientAfter, QueueAfter, WalkAfter;
    WaitsAfter(r, s, e, Leaf(leaf));
    if Insertion(r, s, e) == Some(Leaf(leaf)) {
      InsertedIsKnown(r, s, e, leaf);
    }
  }

  lemma StepKeepsViewBehind(r: Request, s: State, e: Step, leaf: nat)
    requires Enabled(r, s, e) && KnownItem(r, s, leaf) && ViewIsBehind(r, s, leaf)
    ensures ViewIsBehind(r, Apply(r, s, e), leaf)
  {
    hide Follows, QueueAfter, HistoryAfter, WalkAfter, Selects, Waits;
  }

  lemma StepKeepsNotLost(r: Request, s: State, e: Step, leaf: nat)
    requires Enabled(r, s, e) && Phases(r, s.call) && NotLost(r, s, leaf) && ViewIsBehind(r, s, leaf)
    ensures NotLost(r, Apply(r, s, e), leaf)
  {
    hide Insert, Follows, Unique, QueueAfter, Waits;
    WaitsAfter(r, s, e, Leaf(leaf));
    if e.Pull? {
      assert s.feed.buffer == [s.feed.buffer[0]] + s.feed.buffer[1..];
    }
    if e.Push? {
      assert forall l <- s.feed.buffer :: l in FeedAfter(s.feed, e).buffer;
      assert e.leaf in FeedAfter(s.feed, e).buffer;
      assert forall l <- s.feed.storing :: l == e.leaf || l in FeedAfter(s.feed, e).storing;
    }
    if e.BeginWalk? && Follows(r, |r.subscriptions|, leaf) {
      FollowedIsSelected(r, |r.subscriptions|, leaf);
    }
  }

  lemma StepKeepsOwed(r: Request, s: State, e: Step, leaf: nat)
    requires Enabled(r, s, e) && Phases(r, s.call) && OneMarker(r, s) && ViewIsBehind(r, s, leaf)
    requires VisitedBehind(s, leaf) && Owed(r, s, leaf)
    ensures Owed(r, Apply(r, s, e), leaf)
  {
    hide Follows, Selects, Insert, Unique, Waits;
    var i := Insertion(r, s, e);
    if i.Some? {
      AheadAfterInsert(s.call.queue, i.value, leaf);
    }
  }

  lemma StepKeepsWalkedOver(r: Request, s: State, e: Step, leaf: nat)
    requires Enabled(r, s, e) && WalkedOver(r, s, leaf) && VisitedBehind(s, leaf)
    ensures WalkedOver(r, Apply(r, s, e), leaf) && VisitedBehind(Apply(r, s, e), leaf)
  {
    hide Follows, QueueAfter, SenderAfter, ClientAfter, Waits;
  }

  lemma StepKeepsDelivered(r: Request, s: State, e: Step, leaf: nat)
    requires Enabled(r, s, e) && Phases(r, s.call) && OneMarker(r, s) && ViewIsBehind(r, s, leaf)
    requires VisitedBehind(s, leaf) && Owed(r, s, leaf) && Delivered(r, s, leaf)
    ensures Delivered(r, Apply(r, s, e), leaf)
  {
    hide Follows, Selects, Insert, Unique, Waits, QueueAfter;
  }

  lemma StepKeepsLeaf(r: Request, s: State, e: Step, leaf: nat)
    requires Enabled(r, s, e) && Inv(r, s)
    ensures LeafInv(r, Apply(r, s, e), leaf)
  {
    assert LeafInv(r, s, leaf);
    hide Enabled, Apply, OneMarker, KnownFeed, Owed, NotLost, KnownItem, ViewIsBehind, VisitedBehind, WalkedOver;
    hide Delivered, Unique;
    StepKeepsKnown(r, s, e, leaf);
    StepKeepsViewBehind(r, s, e, leaf);
    StepKeepsNotLost(r, s, e, leaf);
    StepKeepsOwed(r, s, e, leaf);
    StepKeepsWalkedOver(r, s, e, leaf);
    StepKeepsDelivered(r, s, e, leaf);
  }

  lemma StepKeepsInv(r: Request, s: State, e: Step)
    requires Enabled(r, s, e) && Inv(r, s)
    ensures Inv(r, Apply(r, s, e))
  {
    assert KnownFeed(Apply(r, s, e).feed) by { FeedStaysKnown(s.feed, e); }
    hide LeafInv, Enabled, Apply, KnownFeed, Phases, OneMarker, MarkerFirst, Counted;
    StepKeepsPhases(r, s, e);
    StepKeepsMarkers(r, s, e);
    StepKeepsCount(r, s, e);
    forall l: nat
      ensures LeafInv(r, Apply(r, s, e), l)
    {
      StepKeepsLeaf(r, s, e, l);
    }
  }
}
