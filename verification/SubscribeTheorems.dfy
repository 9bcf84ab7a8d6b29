/** What holds in every state that a Subscribe call can reach. */
module SubscribeTheorems {
  import opened Options
  import opened CoalesceQueue
  import opened SubscribeProtocol
  import opened SubscribeSafety

  ghost predicate Reached(r: Request, s: State) {
    exists init: State, run: seq<Step> :: Initial(r, init) && CanRun(r, init, run) && s == Run(r, init, run)
  }

  lemma InitialInv(r: Request, s: State)
    requires Initial(r, s)
    ensures Inv(r, s)
  {
    forall l: nat
      ensures LeafInv(r, s, l)
    {
      assert !Waits(s.call.queue, Leaf(l));
    }
  }

  lemma {:induction false} RunKeepsInv(r: Request, s: State, run: seq<Step>)
    requires Inv(r, s) && CanRun(r, s, run)
    ensures Inv(r, Run(r, s, run))
    decreases run
  {
    hide Inv, Enabled, Apply;
    if run != [] {
      StepKeepsInv(r, s, run[0]);
      RunKeepsInv(r, Apply(r, s, run[0]), run[1..]);
    }
  }

  lemma ReachedInv(r: Request, s: State)
    requires Reached(r, s)
    ensures Inv(r, s)
  {
    hide Inv, Initial;
    var init, run :| Initial(r, init) && CanRun(r, init, run) && s == Run(r, init, run);
    InitialInv(r, init);
    RunKeepsInv(r, init, run);
  }

  lemma {:induction false} RunAppend(r: Request, s: State, run: seq<Step>, e: Step)
    requires CanRun(r, s, run) && Enabled(r, Run(r, s, run), e)
    ensures CanRun(r, s, run + [e]) && Run(r, s, run + [e]) == Apply(r, Run(r, s, run), e)
    decreases run
  {
    hide Enabled, Apply;
    if run == [] {
      assert run + [e] == [e];
    } else {
      RunAppend(r, Apply(r, s, run[0]), run[1..], e);
      assert (run + [e])[1..] == run[1..] + [e];
    }
  }

  lemma ReachedStep(r: Request, s: State, e: Step)
    requires Reached(r, s) && Enabled(r, s, e)
    ensures Reached(r, Apply(r, s, e))
  {
    hide Initial, Enabled, Apply, CanRun, Run;
    var init, run :| Initial(r, init) && CanRun(r, init, run) && s == Run(r, init, run);
    RunAppend(r, init, run, e);
  }

  /** Once its subscriptions are registered, every update that a call owes its client is current at the client,
      under way, in front of the initial walk, or older than an updates-only call. */
  lemma NoUpdateIsLost(r: Request, s: State, leaf: nat)
    requires Reached(r, s) && Followed(r, s, leaf)
    ensures Current(s, leaf) || UnderWay(s, leaf) || Unwalked(r, s.call, leaf) || Unchanged(r, s, leaf)
  {
    ReachedInv(r, s);
    assert LeafInv(r, s, leaf);
  }

  /** Nothing is on its way to the client. */
  predicate Drained(r: Request, s: State) {
    && s.feed.storing == multiset{} && s.feed.buffer == [] && s.feed.pulled.None?
    && s.call.listening == |r.subscriptions| && (r.mode.Stream? ==> s.call.walk.Walked?)
    && s.call.queue == [] && s.call.sender.Idle?
  }

  /** The client of a drained STREAM call holds exactly the permitted part of the cache that it follows, and the
      client of a drained updates-only call exactly what has changed since its subscriptions were registered. */
  lemma DrainedViewIsCurrent(r: Request, s: State, leaf: nat)
    requires Reached(r, s) && Drained(r, s) && Followed(r, s, leaf)
    ensures r.mode.Stream? ==> Current(s, leaf)
    ensures r.mode.UpdatesOnly? && !Unchanged(r, s, leaf) ==> Current(s, leaf)
  {
    NoUpdateIsLost(r, s, leaf);
  }

  /** The client never holds what it may not see or did not ask for, nor anything newer than the cache. */
  lemma NothingElseIsSent(r: Request, s: State, leaf: nat)
    requires Reached(r, s) && leaf in s.client.sent
    ensures leaf in r.permitted && Selects(r, 0, leaf)
    ensures leaf in s.feed.cache && s.client.sent[leaf] <= s.feed.cache[leaf]
  {
    ReachedInv(r, s);
    assert LeafInv(r, s, leaf);
  }

  /** A client is synced at most once, and exactly once when nothing more is coming. */
  lemma SyncedOnce(r: Request, s: State)
    requires Reached(r, s)
    ensures s.client.syncs <= 1
    ensures s.client.syncs == 1 && !r.mode.UpdatesOnly? ==> s.call.walk.Walked?
    ensures s.call.queue == [] && (r.mode.UpdatesOnly? || s.call.walk.Walked?) ==> s.client.syncs == 1
  {
    ReachedInv(r, s);
  }

  /** A synced client of a ONCE or STREAM call was sent every permitted leaf that the walk visited, at the version
      visited or a later one, and so every selected leaf that was in the cache when the walk began. */
  lemma SyncComesAfterTheWalk(r: Request, s: State, leaf: nat)
    requires Reached(r, s) && s.client.syncs > 0 && leaf in r.permitted
    ensures leaf in s.history.visited ==>
      leaf in s.client.sent && s.history.visited[leaf] <= s.client.sent[leaf]
    ensures leaf in s.history.start && Selects(r, 0, leaf) ==>
      leaf in s.client.sent && s.history.start[leaf] <= s.client.sent[leaf]
  {
    ReachedInv(r, s);
    assert LeafInv(r, s, leaf);
  }

  lemma StepKeepsMarks(r: Request, s: State, e: Step)
    requires Enabled(r, s, e)
    ensures !s.call.walk.NotBegun? ==>
      !Apply(r, s, e).call.walk.NotBegun? && Apply(r, s, e).history.start == s.history.start
    ensures s.call.listening >= |r.subscriptions| ==>
      Apply(r, s, e).call.listening >= |r.subscriptions| && Apply(r, s, e).history.floor == s.history.floor
  {
    hide QueueAfter, ClientAfter, SenderAfter, FeedAfter;
  }

  lemma {:induction false} RunKeepsMarks(r: Request, s: State, run: seq<Step>)
    requires CanRun(r, s, run)
    ensures !s.call.walk.NotBegun? ==> Run(r, s, run).history.start == s.history.start
    ensures s.call.listening >= |r.subscriptions| ==> Run(r, s, run).history.floor == s.history.floor
    decreases run
  {
    hide Enabled, Apply;
    if run != [] {
      StepKeepsMarks(r, s, run[0]);
      RunKeepsMarks(r, Apply(r, s, run[0]), run[1..]);
    }
  }

  lemma {:induction false} ReachedRun(r: Request, s: State, run: seq<Step>)
    requires Reached(r, s) && CanRun(r, s, run)
    ensures Reached(r, Run(r, s, run))
    decreases run
  {
    hide Reached, Enabled, Apply;
    if run != [] {
      ReachedStep(r, s, run[0]);
      ReachedRun(r, Apply(r, s, run[0]), run[1..]);
    }
  }

  /** A client that is synced after the walk has begun has been sent every permitted leaf that it asked for and that was
      then in the cache, at that version or a later one. */
  lemma SyncedClientsHaveTheStart(r: Request, s: State, run: seq<Step>, leaf: nat)
    requires Reached(r, s) && Enabled(r, s, BeginWalk) && CanRun(r, Apply(r, s, BeginWalk), run)
    requires Run(r, Apply(r, s, BeginWalk), run).client.syncs > 0
    requires leaf in s.feed.cache && leaf in r.permitted && Selects(r, 0, leaf)
    ensures var sent := Run(r, Apply(r, s, BeginWalk), run).client.sent;
            leaf in sent && s.feed.cache[leaf] <= sent[leaf]
  {
    hide Reached, Selects, CanRun, Run;
    var begun := Apply(r, s, BeginWalk);
    ReachedStep(r, s, BeginWalk);
    ReachedRun(r, begun, run);
    RunKeepsMarks(r, begun, run);
    SyncComesAfterTheWalk(r, Run(r, begun, run), leaf);
  }

  /** In an updates-only call, what is written after the last subscription was registered is at the client once nothing
      is under way. */
  lemma LaterChangesArrive(r: Request, s: State, run: seq<Step>, leaf: nat)
    requires Reached(r, s) && r.mode.UpdatesOnly? && s.call.listening + 1 == |r.subscriptions|
    requires CanRun(r, Apply(r, s, Listen), run) && Drained(r, Run(r, Apply(r, s, Listen), run))
    requires var cache := Run(r, Apply(r, s, Listen), run).feed.cache;
             leaf in cache && (leaf in s.feed.cache ==> cache[leaf] != s.feed.cache[leaf])
    requires leaf in r.permitted && Follows(r, |r.subscriptions|, leaf)
    ensures var done := Run(r, Apply(r, s, Listen), run);
            leaf in done.client.sent && done.client.sent[leaf] == done.feed.cache[leaf]
  {
    hide Reached, Follows, CanRun, Run;
    var begun := Apply(r, s, Listen);
    ReachedStep(r, s, Listen);
    ReachedRun(r, begun, run);
    RunKeepsMarks(r, begun, run);
    DrainedViewIsCurrent(r, Run(r, begun, run), leaf);
  }

  /** The client of an updates-only call is synced before it is sent any update. */
  lemma UpdatesOnlySyncsFirst(r: Request, s: State)
    requires Reached(r, s) && r.mode.UpdatesOnly?
    requires s.client.sent != map[] || !s.call.sender.Idle?
    ensures s.client.syncs == 1
  {
    ReachedInv(r, s);
  }

  /** The duplicate counts that the sender was given, the items that it took, and what the waiting items stand for
      add up to the insertions. */
  lemma InsertionsAddUp(r: Request, s: State)
    requires Reached(r, s)
    ensures s.history.inserted == s.history.accounted + Total(s.call.queue)
  {
    ReachedInv(r, s);
  }

  lemma StepNeverGoesBack(r: Request, s: State, e: Step, leaf: nat)
    requires Reached(r, s) && Enabled(r, s, e) && leaf in s.client.sent
    ensures leaf in Apply(r, s, e).client.sent && s.client.sent[leaf] <= Apply(r, s, e).client.sent[leaf]
  {
    ReachedInv(r, s);
    assert LeafInv(r, s, leaf);
  }

  /** No client sees a leaf go back to an earlier version. */
  lemma {:induction false} ViewNeverGoesBack(r: Request, s: State, run: seq<Step>, leaf: nat)
    requires Reached(r, s) && CanRun(r, s, run) && leaf in s.client.sent
    ensures leaf in Run(r, s, run).client.sent && s.client.sent[leaf] <= Run(r, s, run).client.sent[leaf]
    decreases run
  {
    hide Reached, Enabled, Apply;
    if run != [] {
      StepNeverGoesBack(r, s, run[0], leaf);
      ReachedStep(r, s, run[0]);
      ViewNeverGoesBack(r, Apply(r, s, run[0]), run[1..], leaf);
    }
  }
}
