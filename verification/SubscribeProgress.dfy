/** A Subscribe call never hangs: from every state that it can reach, what is under way reaches the client. */
module SubscribeProgress {
  import opened Options
  import opened CoalesceQueue
  import opened SubscribeProtocol
  import opened SubscribeSafety
  import opened SubscribeTheorems

  /** What the current query must still visit is what its subscription selects from the cache. */
  predicate LeftIsThere(r: Request, s: State) {
    s.call.walk.Walking? ==>
      && s.call.walk.next <= |r.subscriptions|
      && s.call.walk.left <= s.feed.cache.Keys
      && (s.call.walk.left != {} ==>
            0 < s.call.walk.next && s.call.walk.left <= r.subscriptions[s.call.walk.next - 1].leaves)
  }

  lemma StepKeepsLeft(r: Request, s: State, e: Step)
    requires LeftIsThere(r, s) && Enabled(r, s, e)
    ensures LeftIsThere(r, Apply(r, s, e))
  {
    hide QueueAfter, SenderAfter, ClientAfter, HistoryAfter;
  }

  lemma {:induction false} RunKeepsLeft(r: Request, s: State, run: seq<Step>)
    requires LeftIsThere(r, s) && CanRun(r, s, run)
    ensures LeftIsThere(r, Run(r, s, run))
    decreases run
  {
    hide LeftIsThere, Enabled, Apply;
    if run != [] {
      StepKeepsLeft(r, s, run[0]);
      RunKeepsLeft(r, Apply(r, s, run[0]), run[1..]);
    }
  }

  lemma LeftOfReached(r: Request, s: State)
    requires Reached(r, s)
    ensures LeftIsThere(r, s)
  {
    hide CanRun, Run;
    var init, run :| Initial(r, init) && CanRun(r, init, run) && s == Run(r, init, run);
    RunKeepsLeft(r, init, run);
  }

  // ----- how much is still to be done -----

  /** What the queries from the `n`th on will cost. */
  function QueriesLeft(r: Request, cache: set<nat>, n: nat): nat
    decreases |r.subscriptions| - n
  {
    if n >= |r.subscriptions| then 0
    else 1 + 4 * |r.subscriptions[n].leaves * cache| + QueriesLeft(r, cache, n + 1)
  }

  function WalkLeft(r: Request, s: State): nat {
    match s.call.walk
    case NotBegun => if !r.mode.UpdatesOnly? then 6 + QueriesLeft(r, s.feed.cache.Keys, 0) else 0
    case Walking(next, left) => 5 + 4 * |left| + QueriesLeft(r, s.feed.cache.Keys, next)
    case Walked => 0
  }

  function SenderLeft(sender: Sender): nat {
    match sender
    case Idle => 0
    case Took(_) => 2
    case Read(_, _) => 1
  }

  /** Every update yet to be sent counts the steps that it has before it. */
  function Left(r: Request, s: State): nat
    requires s.call.listening <= |r.subscriptions|
  {
    6 * |s.feed.storing| + 5 * |s.feed.buffer| + (if s.feed.pulled.Some? then 4 else 0)
    + 3 * |s.call.queue| + SenderLeft(s.call.sender)
    + (|r.subscriptions| - s.call.listening) + WalkLeft(r, s)
  }

  /** Nothing is under way, and the walk of a call that has one is over. */
  predicate Empty(r: Request, s: State) {
    && s.feed.storing == multiset{} && s.feed.buffer == [] && s.feed.pulled.None?
    && s.call.queue == [] && s.call.sender.Idle?
    && (r.mode.Once? || s.call.listening == |r.subscriptions|) && (r.mode.UpdatesOnly? || s.call.walk.Walked?)
  }

  /** Steps of the feed bring an update nearer to the queue. */
  lemma FeedStep(r: Request, s: State, e: Step)
    requires Enabled(r, s, e) && (e.Push? || e.Pull? || e.Match?) && s.call.listening <= |r.subscriptions|
    ensures Left(r, Apply(r, s, e)) < Left(r, s)
  {
    hide QueriesLeft, Follows, Insert;
    var i := Insertion(r, s, e);
    if i.Some? {
      InsertKeepsOrder(s.call.queue, i.value);
    }
  }

  lemma SenderStep(r: Request, s: State, e: Step)
    requires Enabled(r, s, e) && (e.Take? || e.ReadValue? || e.Send?) && s.call.listening <= |r.subscriptions|
    ensures Left(r, Apply(r, s, e)) < Left(r, s)
  {
    hide QueriesLeft, Follows, Insert;
  }

  lemma WalkStep(r: Request, s: State, e: Step)
    requires Enabled(r, s, e) && s.call.listening <= |r.subscriptions| && LeftIsThere(r, s)
    requires r.mode.UpdatesOnly? ==> s.call.walk.NotBegun?
    requires e.Listen? || e.BeginWalk? || e.BeginQuery? || e.EndWalk? || (e.Visit? && e.leaf in s.call.walk.left)
    ensures Left(r, Apply(r, s, e)) < Left(r, s)
  {
    hide Follows, Insert;
    if e.Visit? {
      VisitStep(r, s, e);
    } else if e.EndWalk? {
      InsertKeepsOrder(s.call.queue, SyncMarker);
    } else {
      hide QueueAfter, Insertion;
      SameQueue(r, s, e);
    }
  }

  lemma SameQueue(r: Request, s: State, e: Step)
    requires Enabled(r, s, e) && (e.Listen? || e.BeginWalk? || e.BeginQuery?)
    ensures QueueAfter(r, s, e) == s.call.queue
  {
  }

  lemma VisitStep(r: Request, s: State, e: Step)
    requires Enabled(r, s, e) && e.Visit? && e.leaf in s.call.walk.left && s.call.listening <= |r.subscriptions|
    ensures Left(r, Apply(r, s, e)) < Left(r, s)
  {
    hide Follows, Insert, QueriesLeft;
    InsertKeepsOrder(s.call.queue, Leaf(e.leaf));
    assert |s.call.walk.left - {e.leaf}| == |s.call.walk.left| - 1;
  }

  /** A call that is not done has a step to take which brings it nearer to its end, whatever the devices do. */
  lemma NeverStuck(r: Request, s: State) returns (e: Step)
    requires Reached(r, s) && !Empty(r, s)
    ensures Enabled(r, s, e) && !e.Write? && s.call.listening <= |r.subscriptions|
    ensures Apply(r, s, e).call.listening <= |r.subscriptions| && Left(r, Apply(r, s, e)) < Left(r, s)
  {
    hide Left, Reached, WalkLeft, QueriesLeft, Insert, Follows, Selects, Apply, LeafInv;
    ReachedInv(r, s);
    LeftOfReached(r, s);
    e := NextStep(r, s);
    if e.Push? || e.Pull? || e.Match? {
      FeedStep(r, s, e);
    } else if e.Take? || e.ReadValue? || e.Send? {
      SenderStep(r, s, e);
    } else {
      WalkStep(r, s, e);
    }
    ListeningAfter(r, s, e);
  }

  lemma ListeningAfter(r: Request, s: State, e: Step)
    requires Enabled(r, s, e) && s.call.listening <= |r.subscriptions|
    ensures Apply(r, s, e).call.listening <= |r.subscriptions|
  {
  }

  lemma NextStep(r: Request, s: State) returns (e: Step)
    requires Inv(r, s) && LeftIsThere(r, s) && !Empty(r, s)
    ensures Enabled(r, s, e) && !e.Write? && (e.Visit? ==> e.leaf in s.call.walk.left)
  {
    hide Insert, Follows, Selects, NotLost, Owed, WalkedOver, Delivered, ViewIsBehind, VisitedBehind, Unique, OneMarker;
    var f, c := s.feed, s.call;
    if c.sender.Took? {
      assert LeafInv(r, s, c.sender.leaf);
      e := ReadValue;
    } else if c.sender.Read? {
      e := Send;
    } else if c.queue != [] {
      e := Take;
    } else if f.pulled.Some? {
      e := Match;
    } else if f.buffer != [] {
      e := Pull;
    } else if f.storing != multiset{} {
      var leaf :| leaf in f.storing;
      e := Push(leaf);
    } else if !r.mode.Once? && c.listening < |r.subscriptions| {
      e := Listen;
    } else if c.walk.NotBegun? {
      e := BeginWalk;
    } else if c.walk.left != {} {
      var leaf :| leaf in c.walk.left;
      e := Visit(leaf);
    } else {
      e := if c.walk.next < |r.subscriptions| then BeginQuery else EndWalk;
    }
  }

  lemma {:induction false} CanBeEmptied(r: Request, s: State) returns (run: seq<Step>)
    requires Reached(r, s)
    ensures CanRun(r, s, run) && forall e <- run :: !e.Write?
    ensures Reached(r, Run(r, s, run)) && Empty(r, Run(r, s, run)) && Run(r, s, run).feed.cache == s.feed.cache
    decreases if s.call.listening <= |r.subscriptions| then Left(r, s) else 0
  {
    hide Left, Reached, Enabled, Apply, Empty;
    if Empty(r, s) {
      run := [];
    } else {
      var e := NeverStuck(r, s);
      ReachedStep(r, s, e);
      CacheStays(r, s, e);
      var rest := CanBeEmptied(r, Apply(r, s, e));
      run := [e] + rest;
      assert run[1..] == rest;
    }
  }

  /** From every reached state the call can go on, without another write, until nothing is under way.  Then the client
      has been synced once, and has the present version of every permitted leaf that it follows; in an updates-only
      call, of each that has changed since its subscriptions were registered. */
  lemma EverythingArrives(r: Request, s: State) returns (run: seq<Step>)
    requires Reached(r, s)
    ensures CanRun(r, s, run) && forall e <- run :: !e.Write?
    ensures var done := Run(r, s, run);
            && done.call.queue == [] && done.feed.buffer == [] && done.feed.storing == multiset{}
            && done.feed.cache == s.feed.cache && done.client.syncs == 1
    ensures var done := Run(r, s, run);
            forall leaf <- s.feed.cache | leaf in r.permitted && Follows(r, |r.subscriptions|, leaf) ::
              && (r.mode.Stream? ==> leaf in done.client.sent && done.client.sent[leaf] == s.feed.cache[leaf])
              && (r.mode.UpdatesOnly? && !Unchanged(r, done, leaf) ==>
                    leaf in done.client.sent && done.client.sent[leaf] == s.feed.cache[leaf])
  {
    hide Reached, Follows, Unchanged, Run, CanRun;
    run := CanBeEmptied(r, s);
    var done := Run(r, s, run);
    SyncedOnce(r, done);
    forall leaf <- s.feed.cache | !r.mode.Once? && leaf in r.permitted && Follows(r, |r.subscriptions|, leaf)
      ensures r.mode.Stream? ==> Current(done, leaf)
      ensures r.mode.UpdatesOnly? && !Unchanged(r, done, leaf) ==> Current(done, leaf)
    {
      DrainedViewIsCurrent(r, done, leaf);
    }
  }

  lemma CacheStays(r: Request, s: State, e: Step)
    requires Enabled(r, s, e) && !e.Write?
    ensures Apply(r, s, e).feed.cache == s.feed.cache
  {
  }
}
