/**
 * A subscription without a path is walked over, but never registered for updates.  So a STREAM client is kept
 * current only if everything it selects is also selected by one of its subscriptions with a path.
 */
module SubscriptionPaths {
  import opened Options
  import opened CoalesceQueue
  import opened SubscribeProtocol
  import opened SubscribeSafety
  import opened SubscribeTheorems

  /** Whenever nothing is on its way to the client, it holds the whole cache as far as selected and permitted. */
  ghost predicate KeptCurrent(r: Request) {
    forall s: State, leaf: nat ::
      Reached(r, s) && Drained(r, s) && leaf in s.feed.cache && leaf in r.permitted && Selects(r, 0, leaf)
      ==> Current(s, leaf)
  }

  /** Every permitted leaf that the request selects is selected by a subscription with a path. */
  ghost predicate PathsCoverAll(r: Request) {
    forall leaf: nat :: leaf in r.permitted && Selects(r, 0, leaf) ==> Follows(r, |r.subscriptions|, leaf)
  }

  /** A call that has registered `n` subscriptions while the cache is still empty. */
  function Quiet(n: nat, walk: Walk): State {
    State(Feed(map[], multiset{}, [], None), Call(n, walk, [], Idle), Client(map[], 0),
          History(map[], map[], map[], 0, 0))
  }

  lemma ReachedAtOnce(r: Request, s: State)
    requires Initial(r, s)
    ensures Reached(r, s)
  {
    assert CanRun(r, s, []) && Run(r, s, []) == s;
  }

  lemma {:induction false} QuietListening(r: Request, n: nat)
    requires r.mode.Stream? && n <= |r.subscriptions|
    ensures Reached(r, Quiet(n, NotBegun))
  {
    if n == 0 {
      ReachedAtOnce(r, Quiet(0, NotBegun));
    } else {
      hide Reached;
      QuietListening(r, n - 1);
      ReachedStep(r, Quiet(n - 1, NotBegun), Listen);
    }
  }

  lemma {:induction false} QuietWalking(r: Request, n: nat)
    requires r.mode.Stream? && n <= |r.subscriptions|
    ensures Reached(r, Quiet(|r.subscriptions|, Walking(n, {})))
  {
    hide Reached;
    var all := |r.subscriptions|;
    if n == 0 {
      QuietListening(r, all);
      ReachedStep(r, Quiet(all, NotBegun), BeginWalk);
    } else {
      QuietWalking(r, n - 1);
      assert r.subscriptions[n - 1].leaves * Quiet(all, Walking(n - 1, {})).feed.cache.Keys == {};
      ReachedStep(r, Quiet(all, Walking(n - 1, {})), BeginQuery);
    }
  }

  /** The call has walked over an empty cache, and synced its client. */
  function Synced(r: Request, feed: Feed): State {
    State(feed, Call(|r.subscriptions|, Walked, [], Idle), Client(map[], 1), History(map[], map[], map[], 1, 1))
  }

  lemma QuietlySynced(r: Request)
    requires r.mode.Stream?
    ensures Reached(r, Synced(r, Feed(map[], multiset{}, [], None)))
  {
    hide Reached;
    var s := Quiet(|r.subscriptions|, Walking(|r.subscriptions|, {}));
    QuietWalking(r, |r.subscriptions|);
    ReachedStep(r, s, EndWalk);
    ReachedStep(r, Apply(r, s, EndWalk), Take);
    assert Apply(r, Apply(r, s, EndWalk), Take) == Synced(r, s.feed);
  }

  /** The first write of a leaf that no path selects passes the matcher by. */
  lemma Missed(r: Request, leaf: nat)
    requires r.mode.Stream? && !Follows(r, |r.subscriptions|, leaf)
    ensures Reached(r, Synced(r, Feed(map[leaf := 0], multiset{}, [], None)))
  {
    hide Reached, Follows;
    QuietlySynced(r);
    var s := Synced(r, Feed(map[], multiset{}, [], None));
    ReachedStep(r, s, Write(leaf));
    var written := Synced(r, Feed(map[leaf := 0], multiset{leaf}, [], None));
    assert Apply(r, s, Write(leaf)) == written;
    ReachedStep(r, written, Push(leaf));
    var pushed := Synced(r, Feed(map[leaf := 0], multiset{}, [leaf], None));
    assert Apply(r, written, Push(leaf)) == pushed;
    ReachedStep(r, pushed, Pull);
    var pulled := Synced(r, Feed(map[leaf := 0], multiset{}, [], Some(leaf)));
    assert Apply(r, pushed, Pull) == pulled;
    ReachedStep(r, pulled, Match);
  }

  /** A STREAM client is kept current exactly when its paths cover what it selects. */
  lemma KeptCurrentIff(r: Request)
    requires r.mode.Stream?
    ensures KeptCurrent(r) <==> PathsCoverAll(r)
  {
    if PathsCoverAll(r) {
      forall s: State, leaf: nat
        | Reached(r, s) && Drained(r, s) && leaf in s.feed.cache && leaf in r.permitted && Selects(r, 0, leaf)
        ensures Current(s, leaf)
      {
        DrainedViewIsCurrent(r, s, leaf);
      }
    } else {
      hide Reached, Follows, Selects;
      var leaf: nat :| leaf in r.permitted && Selects(r, 0, leaf) && !Follows(r, |r.subscriptions|, leaf);
      Missed(r, leaf);
      var s := Synced(r, Feed(map[leaf := 0], multiset{}, [], None));
      assert Drained(r, s) && !Current(s, leaf);
    }
  }
}
