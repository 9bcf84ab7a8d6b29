/** Target configurations, the control messages that carry them, and what a message means for the connections. */
module Targets {
  import opened Options

  datatype Credentials = Credentials(username: string, password: string)

  datatype Target = Target(
    addresses: seq<string>, credentials: Option<Credentials>, request: string, meta: map<string, string>)

  /** Named subscribe requests (kept abstract as strings) and the targets that use them. */
  datatype Configuration = Configuration(request: map<string, string>, target: map<string, Target>)

  datatype Message = Message(insert: Option<Configuration>, remove: seq<string>)

  /** What a connection has been told to connect to. */
  datatype Wanted = Wanted(target: Target, request: Option<string>)

  type View = map<string, Wanted>

  function Get<T>(m: map<string, T>, name: string): Option<T> {
    if name in m then Some(m[name]) else None
  }

  /** The targets' addresses and credentials agree; request and meta are not looked at. */
  predicate SameTarget(a: Target, b: Target) {
    a.addresses == b.addresses && a.credentials == b.credentials
  }

  method Equal(t: Target, other: Target) returns (same: bool)
    ensures same <==> SameTarget(t, other)
    ensures same <==> t.addresses == other.addresses && t.credentials == other.credentials
  {
    if |t.addresses| != |other.addresses| {
      return false;
    }
    for i := 0 to |t.addresses|
      invariant t.addresses[..i] == other.addresses[..i]
    {
      if other.addresses[i] != t.addresses[i] {
        return false;
      }
    }
    if (t.credentials.None? && other.credentials.Some?) || (t.credentials.Some? && other.credentials.None?) {
      return false;
    }
    if t.credentials.Some? && other.credentials.Some? {
      if t.credentials.value.username != other.credentials.value.username {
        return false;
      }
      if t.credentials.value.password != other.credentials.value.password {
        return false;
      }
    }
    return true;
  }

  function Inserted(msg: Message): map<string, Target> {
    if msg.insert.None? then map[] else msg.insert.value.target
  }

  function NewWanted(c: Configuration, name: string): Wanted
    requires name in c.target
  {
    Wanted(c.target[name], Get(c.request, c.target[name].request))
  }

  /** What one name is left with: a connection whose target has not changed is kept as it is. */
  function Upsert(was: Option<Wanted>, c: Configuration, name: string): Wanted
    requires name in c.target
  {
    if was.Some? && SameTarget(was.value.target, c.target[name]) then was.value else NewWanted(c, name)
  }

  function HandleAt(was: Option<Wanted>, msg: Message, name: string): Option<Wanted> {
    var kept := if name in msg.remove then None else was;
    if name in Inserted(msg) then Some(Upsert(kept, msg.insert.value, name)) else kept
  }

  function Handle(v: View, msg: Message): (v': View)
    ensures forall n :: Get(v', n) == HandleAt(Get(v, n), msg, n)
  {
    map n | n in v.Keys + Inserted(msg).Keys && HandleAt(Get(v, n), msg, n).Some? :: HandleAt(Get(v, n), msg, n).value
  }

  /** What one name is left with when all of `msgs` have been handled. */
  function HandleAllAt(was: Option<Wanted>, msgs: seq<Message>, name: string): Option<Wanted>
    decreases |msgs|
  {
    if msgs == [] then was else HandleAllAt(HandleAt(was, msgs[0], name), msgs[1..], name)
  }

  /** The connections that a message ends, reconnects and starts. */
  function Disconnects(v: View, msg: Message): set<string> {
    set n <- v | n in msg.remove
  }

  function Reconnects(v: View, msg: Message): set<string> {
    set n <- Inserted(msg) | n in v && n !in msg.remove && !SameTarget(v[n].target, Inserted(msg)[n])
  }

  function Starts(v: View, msg: Message): set<string> {
    set n <- Inserted(msg) | n !in v || n in msg.remove
  }

  /** What a message does to one name: its connection is ended, reconnected to what is inserted, started, or left alone. */
  lemma HandleMeans(v: View, msg: Message, n: string)
    ensures n in Disconnects(v, msg) <==> n in v && n in msg.remove
    ensures n in Starts(v, msg) <==>
      msg.insert.Some? && n in msg.insert.value.target && (n !in v || n in msg.remove)
    ensures n in Reconnects(v, msg) <==>
      && msg.insert.Some? && n in msg.insert.value.target && n in v && n !in msg.remove
      && var was, t := v[n].target, msg.insert.value.target[n];
         was.addresses != t.addresses || was.credentials != t.credentials
    ensures n in Handle(v, msg) <==> n in Starts(v, msg) || (n in v && n !in msg.remove)
    ensures n in Starts(v, msg) + Reconnects(v, msg) ==>
      var c, t, now := msg.insert.value, msg.insert.value.target[n], Handle(v, msg)[n];
      now.target == t && now.request == if t.request in c.request then Some(c.request[t.request]) else None
    ensures n in Handle(v, msg) && n !in Starts(v, msg) + Reconnects(v, msg) ==> Handle(v, msg)[n] == v[n]
  {
    assert Get(Handle(v, msg), n) == HandleAt(Get(v, n), msg, n);
  }

  predicate Idle(v: View, msg: Message) {
    Disconnects(v, msg) == {} && Reconnects(v, msg) == {} && Starts(v, msg) == {}
  }

  /** Handling a message again changes nothing, and does nothing exactly when it does not remove what it inserts. */
  lemma HandlingTwice(v: View, msg: Message)
    ensures Handle(Handle(v, msg), msg) == Handle(v, msg)
    ensures Idle(Handle(v, msg), msg) <==> forall n <- msg.remove :: n !in Inserted(msg)
  {
    var v1 := Handle(v, msg);
    var v2 := Handle(v1, msg);
    forall n
      ensures Get(v2, n) == Get(v1, n)
      ensures n in v1 && n in msg.remove ==> n in Inserted(msg)
      ensures n in Inserted(msg) ==> n in v1 && SameTarget(v1[n].target, Inserted(msg)[n])
    {
      assert Get(v1, n) == HandleAt(Get(v, n), msg, n);
      assert Get(v2, n) == HandleAt(Get(v1, n), msg, n);
    }
    assert v2 == v1 by {
      forall n
        ensures n in v2 <==> n in v1
        ensures n in v1 && n in v2 ==> v2[n] == v1[n]
      {
        assert Get(v2, n) == Get(v1, n);
      }
    }
    forall n <- msg.remove | n in Inserted(msg)
      ensures n in Disconnects(v1, msg)
    {
      assert Get(v1, n) == HandleAt(Get(v, n), msg, n);
    }
    if forall n <- msg.remove :: n !in Inserted(msg) {
      assert Disconnects(v1, msg) == {};
      assert Reconnects(v1, msg) == {};
      assert Starts(v1, msg) == {};
    }
  }

  /** A target whose request or meta alone has changed keeps its connection with the old ones. */
  lemma RequestChangeIsIgnored(v: View, c: Configuration, name: string)
    requires name in v && name in c.target && SameTarget(v[name].target, c.target[name])
    ensures Handle(v, Message(Some(c), []))[name] == v[name]
  {
    assert Get(Handle(v, Message(Some(c), [])), name) == HandleAt(Get(v, name), Message(Some(c), []), name);
  }
}
