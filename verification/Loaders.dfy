/** Target loaders: they turn successive configurations, or membership events, into control messages. */
module Loaders {
  import opened Options
  import opened Targets

  type Wishes = map<string, Target>

  /** What the loader whose last configuration was `last` says when the new one is `c`. */
  ghost predicate Announces(last: Wishes, c: Configuration, msg: Message) {
    && msg.insert == Some(c)
    && (forall n :: n in msg.remove <==> n in last && n !in c.target)
  }

  class FileTargetLoader {
    var last: Option<Configuration>

    constructor ()
      ensures last == None
    {
      last := None;
    }

    function Last(): Wishes
      reads this
    {
      if last.None? then map[] else last.value.target
    }

    /** One round of WatchConfiguration; `targetConfig` is None if the configuration could not be read. */
    method Poll(targetConfig: Option<Configuration>) returns (msg: Option<Message>)
      modifies this
      ensures targetConfig.None? ==> msg.None? && last == old(last)
      ensures targetConfig.Some? ==>
                last == targetConfig && msg.Some? && Announces(old(Last()), targetConfig.value, msg.value)
      ensures targetConfig.Some? ==>
                && msg.Some? && msg.value.insert == targetConfig
                && forall n :: n in msg.value.remove <==>
                     old(last).Some? && n in old(last).value.target && n !in targetConfig.value.target
    {
      if targetConfig.None? {
        return None;
      }
      var remove := [];
      if last.Some? {
        var todo := last.value.target.Keys;
        while todo != {}
          invariant todo <= Last().Keys
          invariant forall n :: n in remove <==> n in Last() && n !in todo && n !in targetConfig.value.target
        {
          var targetName :| targetName in todo;
          todo := todo - {targetName};
          if targetName !in targetConfig.value.target {
            remove := remove + [targetName];
          }
        }
      }
      last := targetConfig;
      return Some(Message(targetConfig, remove));
    }
  }

  /** A loader never removes what it inserts. */
  lemma AnnouncementsAreDisjoint(last: Wishes, c: Configuration, msg: Message)
    requires Announces(last, c, msg)
    ensures forall v :: Idle(Handle(v, msg), msg)
  {
    forall v
      ensures Idle(Handle(v, msg), msg)
    {
      HandlingTwice(v, msg);
    }
  }

  // ----- other members of the cluster -----

  const REQUEST_ALL := "all"
  /** The request for everything that the other member has. */
  const EVERYTHING := "*"

  /** The connection to another member: subscribed to everything, not locked, and marked as a member. */
  function MemberTarget(member: string): Target {
    Target([member], None, REQUEST_ALL, map["NoLock" := "yes", "ClusterMember" := "yes"])
  }

  /** Handling the messages leaves no connection to the member that went, one to the member that came, made new unless
      there was one to the same address, and every other name as it was.  An empty name stands for none. */
  ghost predicate TellsMembers(msgs: seq<Message>, add: string, remove: string) {
    forall was: Option<Wanted>, name: string ::
      HandleAllAt(was, msgs, name) ==
        if name != "" && name == remove then None
        else if name != "" && name == add then
          if was.Some? && SameTarget(was.value.target, MemberTarget(add)) then was
          else Some(Wanted(MemberTarget(add), Some(EVERYTHING)))
        else was
  }

  /** The callback of the cluster loader. */
  method OnMemberEvent(add: string, remove: string) returns (msgs: seq<Message>)
    ensures TellsMembers(msgs, add, remove)
    ensures var member := Target([add], None, "all", map["NoLock" := "yes", "ClusterMember" := "yes"]);
            forall was: Option<Wanted>, name: string ::
              HandleAllAt(was, msgs, name) ==
                if name != "" && name == remove then None
                else if name != "" && name == add then
                  if was.Some? && was.value.target.addresses == [add] && was.value.target.credentials.None? then was
                  else Some(Wanted(member, Some("*")))
                else was
  {
    msgs := [];
    if add != "" {
      msgs := msgs + [MemberAdded(add)];
    }
    if remove != "" {
      msgs := msgs + [MemberRemoved(remove)];
    }
    forall was: Option<Wanted>, name: string {
      HandleTwo(was, MemberAdded(add), MemberRemoved(remove), name);
    }
  }

  lemma HandleTwo(was: Option<Wanted>, first: Message, second: Message, name: string)
    ensures HandleAllAt(was, [], name) == was
    ensures HandleAllAt(was, [] + [first], name) == HandleAt(was, first, name)
    ensures HandleAllAt(was, [] + [second], name) == HandleAt(was, second, name)
    ensures HandleAllAt(was, [] + [first] + [second], name) == HandleAt(HandleAt(was, first, name), second, name)
  {
    HandleOne(was, first, name);
    HandleOne(was, second, name);
    HandleOne(HandleAt(was, first, name), second, name);
    var both := [] + [first] + [second];
    assert both[0] == first && both[1..] == [] + [second];
  }

  lemma HandleOne(was: Option<Wanted>, msg: Message, name: string)
    ensures HandleAllAt(was, [] + [msg], name) == HandleAt(was, msg, name)
  {
    assert ([] + [msg])[0] == msg && ([] + [msg])[1..] == [];
  }

  function MemberAdded(member: string): Message {
    Message(Some(Configuration(map[REQUEST_ALL := EVERYTHING], map[member := MemberTarget(member)])), [])
  }

  function MemberRemoved(member: string): Message {
    Message(None, [member])
  }
}
