/** The state of one connection to a target, and how the messages received on it change it. */
module ConnectionStates {
  import opened Options
  import opened Rejections
  import opened Targets

  const ALL_TARGETS := "*"

  /** A notification: the target in its prefix, if it has one, and the paths of its updates. */
  datatype Notification = Notification(prefix: Option<string>, updates: seq<Path>)

  datatype Response = Update(notification: Notification) | Sync | ErrorResponse | UnknownResponse | NotAResponse

  /** `Stored` names the cache that took the notification, and the target in the prefix it was stored with. */
  datatype Outcome = Done | Stored(cache: string, target: string) | Failed | Crashed

  datatype Event = Received(queryTarget: string, response: Response) | Dropped

  /** The target an event makes the connection remember: that of an update, not rejected, of a query for all targets. */
  function Sighting(e: Event, rejections: seq<Path>): Option<string> {
    if e.Received? && e.queryTarget == ALL_TARGETS && e.response.Update? && !Rejected(e.response.notification.updates, rejections)
    then e.response.notification.prefix
    else None
  }

  /** The targets sighted since the connection was last dropped. */
  function Sighted(history: seq<Event>, rejections: seq<Path>): set<string> {
    if history == [] then {}
    else
      var e, before := history[|history| - 1], history[..|history| - 1];
      if e.Dropped? then {}
      else if Sighting(e, rejections).Some? then Sighted(before, rejections) + {Sighting(e, rejections).value}
      else Sighted(before, rejections)
  }

  /** Since the event at `k` the connection has not been dropped. */
  predicate KeptSince(history: seq<Event>, k: nat) {
    forall j :: k <= j < |history| ==> !history[j].Dropped?
  }

  /** A target is remembered exactly if some event since the last drop is a sighting of it. */
  lemma {:induction false} SightedMeans(history: seq<Event>, rejections: seq<Path>, target: string)
    ensures target in Sighted(history, rejections) <==>
      exists k :: 0 <= k < |history| && KeptSince(history, k) && Sighting(history[k], rejections) == Some(target)
  {
    if history != [] {
      var last := |history| - 1;
      var e, before := history[last], history[..last];
      SightedMeans(before, rejections, target);
      if !e.Dropped? {
        forall k | 0 <= k < last
          ensures KeptSince(history, k) <==> KeptSince(before, k)
        {
          assert forall j :: k <= j < last ==> history[j] == before[j];
        }
        if Sighting(e, rejections) == Some(target) {
          assert KeptSince(history, last);
        } else if target in Sighted(before, rejections) {
          var k :| 0 <= k < |before| && KeptSince(before, k) && Sighting(before[k], rejections) == Some(target);
          assert history[k] == before[k] && KeptSince(history, k);
        }
        forall k | 0 <= k < |history| && KeptSince(history, k) && Sighting(history[k], rejections) == Some(target)
          ensures target in Sighted(history, rejections)
        {
          assert k < last ==> KeptSince(before, k) && before[k] == history[k];
        }
      } else {
        forall k | 0 <= k < |history|
          ensures !KeptSince(history, k)
        {
          assert history[last].Dropped?;
        }
      }
    }
  }

  /** The test of Forwardable for one connection: it is no cluster member, has the lock if it needs it, and reports the
      target. */
  predicate ForwardTest(clusterMember: bool, useLock: bool, lockAcquired: bool, reports: bool) {
    !clusterMember && (useLock ==> lockAcquired) && reports
  }

  class ConnectionState {
    const name: string
    const useLock: bool
    const clusterMember: bool
    const rejections: seq<Path>

    var target: Target
    var request: Option<string>
    var queryTarget: string
    var connected: bool
    var synced: bool
    var stopped: bool
    var connectionLockAcquired: bool
    var seen: map<string, bool>

    /** What has happened on this connection so far. */
    ghost var history: seq<Event>

    ghost predicate Valid()
      reads this
    {
      && (synced ==> connected)
      && (forall t :: Seen(t) <==> t in Sighted(history, rejections))
    }

    function Wanted(): Wanted
      reads this
    {
      Targets.Wanted(target, request)
    }

    predicate Seen(t: string)
      reads this
    {
      t in seen && seen[t]
    }

    constructor (name: string, wanted: Wanted, useLock: bool, clusterMember: bool, rejections: seq<Path>)
      ensures Valid() && history == [] && this.name == name && Wanted() == wanted
      ensures this.useLock == useLock && this.clusterMember == clusterMember && this.rejections == rejections
      ensures !stopped && !connectionLockAcquired && queryTarget == ""
    {
      this.name, this.useLock, this.clusterMember, this.rejections := name, useLock, clusterMember, rejections;
      target, request, queryTarget := wanted.target, wanted.request, "";
      connected, synced, stopped, connectionLockAcquired := false, false, false, false;
      seen, history := map[], [];
    }

    /** The part of doConnect that decides what is asked for: the target of the request's prefix, or the own name. */
    method SetQueryTarget(prefixTarget: string)
      requires Valid()
      modifies this`queryTarget
      ensures Valid() && queryTarget == if prefixTarget != "" then prefixTarget else name
    {
      queryTarget := if prefixTarget != "" then prefixTarget else name;
    }

    /** The callback for every message received; `cacheFails` says whether the cache will refuse the update. */
    method HandleUpdate(response: Response, cacheFails: bool) returns (outcome: Outcome)
      requires Valid()
      modifies this`connected, this`synced, this`seen, this`history
      ensures Valid() && connected && history == old(history) + [Received(queryTarget, response)]
      ensures synced == (old(synced) || response.Sync?) && (synced ==> connected)
      ensures outcome ==
        match response
        case Update(n) =>
          if Rejected(n.updates, rejections) then Done
          else if queryTarget == ALL_TARGETS then
            if n.prefix.None? then Crashed
            else if cacheFails then Failed
            else Stored(n.prefix.value, n.prefix.value)
          else if cacheFails then Failed
          else Stored(name, if n.prefix == None || n.prefix == Some("") then queryTarget else n.prefix.value)
        case Sync => Done
        case _ => Failed
      ensures response.Update? ==>
        (outcome == Done <==> exists u <- response.notification.updates, r <- rejections :: Matches(u, r))
      ensures forall t ::
        t in seen && seen[t] <==>
          || (t in old(seen) && old(seen)[t])
          || (&& queryTarget == "*" && response.Update? && response.notification.prefix == Some(t)
              && !exists u <- response.notification.updates, r <- rejections :: Matches(u, r))
    {
      ghost var e := Received(queryTarget, response);
      assert (history + [e])[..|history|] == history;
      history := history + [e];
      if !connected {
        connected := true;
      }
      match response {
        case NotAResponse => return Failed;
        case Update(n) =>
          var rejected := RejectUpdate(n.updates, rejections);
          if rejected {
            return Done;
          }
          if queryTarget == ALL_TARGETS {
            if n.prefix.None? {
              return Crashed;
            }
            var target := n.prefix.value;
            seen := seen[target := true];
            return if cacheFails then Failed else Stored(target, target);
          }
          var target := if n.prefix.None? then "" else n.prefix.value;
          if target == "" {
            target := queryTarget;
          }
          return if cacheFails then Failed else Stored(name, target);
        case Sync =>
          synced := true;
          return Done;
        case _ => return Failed;
      }
    }

    /** The callback for the end of a connection; the result says whether the target's cache is reset. */
    method Disconnected() returns (resetCache: bool)
      requires Valid()
      modifies this`connected, this`synced, this`seen, this`history
      ensures Valid() && !connected && !synced && seen == map[] && history == old(history) + [Dropped]
      ensures resetCache <==> queryTarget != ALL_TARGETS
    {
      connected := false;
      synced := false;
      seen := map[];
      history := history + [Dropped];
      resetCache := queryTarget != ALL_TARGETS;
    }
  }
}
