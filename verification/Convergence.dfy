/** Loaders and the connection manager together: whatever is polled, sent and handled in whatever order, the
    connections end up as the loaders' latest configurations want them. */
module Convergence {
  import opened Options
  import opened Targets
  import opened Loaders

  type Loader = nat

  /** `pending` holds the messages a loader has made and not yet got rid of, as the channel may be full. */
  datatype LoaderState = LoaderState(last: Wishes, pending: seq<Message>)

  /** Each target name belongs to one loader. */
  datatype System = System(owner: string -> Loader, view: View, queue: seq<Message>, loaders: map<Loader, LoaderState>)

  const CHANNEL_SIZE := 10

  datatype Step =
    | Poll(l: Loader, config: Configuration, msg: Message)
    | PollFails(l: Loader)
    | AddMember(l: Loader, member: string)
    | RemoveMember(l: Loader, member: string)
    | Send(l: Loader)
    | HandleNext

  ghost predicate Enabled(s: System, step: Step) {
    match step
    case Poll(l, c, msg) =>
      && l in s.loaders && s.loaders[l].pending == [] && Announces(s.loaders[l].last, c, msg)
      && forall n <- c.target :: s.owner(n) == l
    case PollFails(l) => l in s.loaders
    case AddMember(l, m) => l in s.loaders && s.loaders[l].pending == [] && s.owner(m) == l
    case RemoveMember(l, m) => l in s.loaders && s.loaders[l].pending == [] && s.owner(m) == l
    case Send(l) => l in s.loaders && s.loaders[l].pending != [] && |s.queue| < CHANNEL_SIZE
    case HandleNext => s.queue != []
  }

  function SetLoader(s: System, l: Loader, state: LoaderState): System {
    s.(loaders := s.loaders[l := state])
  }

  ghost function Apply(s: System, step: Step): System
    requires Enabled(s, step)
  {
    match step
    case Poll(l, c, msg) => SetLoader(s, l, LoaderState(c.target, [msg]))
    case PollFails(_) => s
    case AddMember(l, m) =>
      SetLoader(s, l, LoaderState(s.loaders[l].last[m := MemberTarget(m)], [MemberAdded(m)]))
    case RemoveMember(l, m) =>
      SetLoader(s, l, LoaderState(s.loaders[l].last - {m}, [MemberRemoved(m)]))
    case Send(l) =>
      var p := s.loaders[l].pending;
      SetLoader(s, l, s.loaders[l].(pending := p[1..])).(queue := s.queue + [p[0]])
    case HandleNext => s.(view := Handle(s.view, s.queue[0]), queue := s.queue[1..])
  }

  lemma {:induction false} HandleAllAppend(was: Option<Wanted>, msgs: seq<Message>, more: seq<Message>, name: string)
    ensures HandleAllAt(was, msgs + more, name) == HandleAllAt(HandleAllAt(was, msgs, name), more, name)
    decreases |msgs|
  {
    if msgs == [] {
      assert msgs + more == more;
    } else {
      assert (msgs + more)[0] == msgs[0] && (msgs + more)[1..] == msgs[1..] + more;
      HandleAllAppend(HandleAt(was, msgs[0], name), msgs[1..], more, name);
    }
  }

  /** A message mentions only names of loader `l`. */
  predicate From(s: System, msg: Message, l: Loader) {
    (forall n <- msg.remove :: s.owner(n) == l) && (forall n <- Inserted(msg) :: s.owner(n) == l)
  }

  /** A connection is what is wanted: it is there or not, with the same addresses and credentials. */
  predicate Agrees(has: Option<Wanted>, wish: Option<Target>) {
    has.Some? == wish.Some? && (has.Some? ==> SameTarget(has.value.target, wish.value))
  }

  /** What the name's loader wants now. */
  function Wish(s: System, name: string): Option<Target> {
    if s.owner(name) in s.loaders then Get(s.loaders[s.owner(name)].last, name) else None
  }

  /** The messages still on their way that may concern a name, in the order in which they will be handled. */
  function OnTheirWay(s: System, name: string): seq<Message> {
    s.queue + if s.owner(name) in s.loaders then s.loaders[s.owner(name)].pending else []
  }

  ghost predicate Converging(s: System) {
    && (forall l <- s.loaders, msg <- s.loaders[l].pending :: From(s, msg, l))
    && (forall l <- s.loaders, n <- s.loaders[l].last :: s.owner(n) == l)
    && (forall name :: Agrees(HandleAllAt(Get(s.view, name), OnTheirWay(s, name), name), Wish(s, name)))
  }

  predicate Started(s: System) {
    s.view == map[] && s.queue == [] && forall l <- s.loaders :: s.loaders[l] == LoaderState(map[], [])
  }

  lemma StartedConverges(s: System)
    requires Started(s)
    ensures Converging(s)
  {
  }

  lemma UnmentionedIsUntouched(was: Option<Wanted>, msg: Message, name: string)
    requires name !in msg.remove && name !in Inserted(msg)
    ensures HandleAt(was, msg, name) == was
  {
  }

  /** What the connection will be when only the messages already in the channel have been handled. */
  function Eventually(s: System, name: string): Option<Wanted> {
    HandleAllAt(Get(s.view, name), s.queue, name)
  }

  /** A loader with nothing pending makes a message: its effect on each name is what the loader wants now. */
  lemma EmitConverges(s: System, l: Loader, state: LoaderState)
    requires Converging(s) && l in s.loaders && s.loaders[l].pending == [] && |state.pending| == 1
    requires From(s, state.pending[0], l) && forall n <- state.last :: s.owner(n) == l
    requires forall name, was :: s.owner(name) == l && Agrees(was, Get(s.loaders[l].last, name)) ==>
               Agrees(HandleAt(was, state.pending[0], name), Get(state.last, name))
    ensures Converging(SetLoader(s, l, state))
  {
    var s' := SetLoader(s, l, state);
    forall name
      ensures Agrees(HandleAllAt(Get(s'.view, name), OnTheirWay(s', name), name), Wish(s', name))
    {
      assert Agrees(HandleAllAt(Get(s.view, name), OnTheirWay(s, name), name), Wish(s, name));
      if s.owner(name) == l {
        assert OnTheirWay(s, name) == s.queue;
        HandleAllAppend(Get(s.view, name), s.queue, state.pending, name);
        assert state.pending[1..] == [];
      } else {
        assert OnTheirWay(s', name) == OnTheirWay(s, name);
      }
    }
  }

  /** A pending message enters the channel. */
  lemma SendConverges(s: System, l: Loader)
    requires Converging(s) && Enabled(s, Send(l))
    ensures Converging(Apply(s, Send(l)))
  {
    var s', p := Apply(s, Send(l)), s.loaders[l].pending;
    forall name
      ensures Agrees(HandleAllAt(Get(s'.view, name), OnTheirWay(s', name), name), Wish(s', name))
    {
      assert Agrees(HandleAllAt(Get(s.view, name), OnTheirWay(s, name), name), Wish(s, name));
      if s.owner(name) == l {
        assert p == [p[0]] + p[1..];
        assert OnTheirWay(s', name) == OnTheirWay(s, name);
      } else {
        var rest := OnTheirWay(s, name)[|s.queue|..];
        assert From(s, p[0], l);
        assert OnTheirWay(s, name) == s.queue + rest && OnTheirWay(s', name) == (s.queue + [p[0]]) + rest;
        HandleAllAppend(Get(s.view, name), s.queue, rest, name);
        HandleAllAppend(Get(s.view, name), s.queue + [p[0]], rest, name);
        HandleAllAppend(Get(s.view, name), s.queue, [p[0]], name);
        UnmentionedIsUntouched(Eventually(s, name), p[0], name);
      }
    }
    forall k <- s'.loaders, msg <- s'.loaders[k].pending
      ensures From(s', msg, k)
    {
      assert msg in s.loaders[k].pending;
    }
  }

  /** The manager takes the next message. */
  lemma HandleConverges(s: System)
    requires Converging(s) && s.queue != []
    ensures Converging(Apply(s, HandleNext))
  {
    var s' := Apply(s, HandleNext);
    forall name
      ensures Agrees(HandleAllAt(Get(s'.view, name), OnTheirWay(s', name), name), Wish(s', name))
    {
      assert Agrees(HandleAllAt(Get(s.view, name), OnTheirWay(s, name), name), Wish(s, name));
      assert OnTheirWay(s, name)[0] == s.queue[0] && OnTheirWay(s, name)[1..] == OnTheirWay(s', name);
    }
  }

  lemma StepConverges(s: System, step: Step)
    requires Converging(s) && Enabled(s, step)
    ensures Converging(Apply(s, step))
  {
    match step {
      case Poll(l, c, msg) => EmitConverges(s, l, LoaderState(c.target, [msg]));
      case PollFails(_) =>
      case AddMember(l, m) =>
        EmitConverges(s, l, LoaderState(s.loaders[l].last[m := MemberTarget(m)], [MemberAdded(m)]));
      case RemoveMember(l, m) =>
        EmitConverges(s, l, LoaderState(s.loaders[l].last - {m}, [MemberRemoved(m)]));
      case Send(l) => SendConverges(s, l);
      case HandleNext => HandleConverges(s);
    }
  }

  ghost predicate CanRun(s: System, steps: seq<Step>)
    decreases |steps|
  {
    steps == [] || (Enabled(s, steps[0]) && CanRun(Apply(s, steps[0]), steps[1..]))
  }

  ghost function Run(s: System, steps: seq<Step>): System
    requires CanRun(s, steps)
    decreases |steps|
  {
    if steps == [] then s else Run(Apply(s, steps[0]), steps[1..])
  }

  /** In every reachable state the messages on their way lead each name to what its loader wants now. */
  lemma {:induction false} AlwaysConverging(s: System, steps: seq<Step>)
    requires Converging(s) && CanRun(s, steps)
    ensures Converging(Run(s, steps))
    decreases |steps|
  {
    if steps != [] {
      StepConverges(s, steps[0]);
      AlwaysConverging(Apply(s, steps[0]), steps[1..]);
    }
  }

  /** The names wanted by any loader. */
  function AllWishes(s: System): set<string> {
    set l <- s.loaders, n <- s.loaders[l].last :: n
  }

  /** Once nothing is on its way, the connections are those of the latest configurations, each to the latest target. */
  lemma Converged(s0: System, steps: seq<Step>)
    requires Started(s0) && CanRun(s0, steps)
    requires var s := Run(s0, steps); s.queue == [] && forall l <- s.loaders :: s.loaders[l].pending == []
    ensures var s := Run(s0, steps);
            && s.view.Keys == AllWishes(s)
            && forall l <- s.loaders, n <- s.loaders[l].last :: SameTarget(s.view[n].target, s.loaders[l].last[n])
  {
    StartedConverges(s0);
    AlwaysConverging(s0, steps);
    var s := Run(s0, steps);
    forall name
      ensures Agrees(Get(s.view, name), Wish(s, name))
    {
      assert OnTheirWay(s, name) == [];
    }
    forall n
      ensures n in s.view <==> n in AllWishes(s)
    {
      assert Agrees(Get(s.view, n), Wish(s, n));
    }
    forall l <- s.loaders, n <- s.loaders[l].last
      ensures n in s.view && SameTarget(s.view[n].target, s.loaders[l].last[n])
    {
      assert Agrees(Get(s.view, n), Wish(s, n));
    }
  }

  // ----- nothing stays on its way -----

  lemma {:induction false} RunInParts(s: System, a: seq<Step>, b: seq<Step>)
    requires CanRun(s, a) && CanRun(Run(s, a), b)
    ensures CanRun(s, a + b) && Run(s, a + b) == Run(Run(s, a), b)
    decreases |a|
  {
    hide Enabled, Apply;
    if a == [] {
      assert a + b == b;
    } else {
      assert (a + b)[0] == a[0] && (a + b)[1..] == a[1..] + b;
      RunInParts(Apply(s, a[0]), a[1..], b);
    }
  }

  /** The loaders want the same as before, and no message of any but `l` was sent. */
  predicate OnlyFlushed(s: System, s': System, l: Loader) {
    && s'.loaders.Keys == s.loaders.Keys
    && forall k <- s.loaders :: s'.loaders[k].last == s.loaders[k].last && (k != l ==> s'.loaders[k] == s.loaders[k])
  }

  /** The messages of a loader can be sent and handled. */
  lemma {:induction false} Flush(s: System, l: Loader) returns (steps: seq<Step>)
    requires l in s.loaders
    ensures CanRun(s, steps) && OnlyFlushed(s, Run(s, steps), l) && forall e <- steps :: e.Send? || e.HandleNext?
    ensures Run(s, steps).queue == [] && Run(s, steps).loaders[l].pending == []
    decreases |s.queue| + 2 * |s.loaders[l].pending|
  {
    if s.queue == [] && s.loaders[l].pending == [] {
      steps := [];
    } else {
      var e := if s.queue != [] then HandleNext else Send(l);
      assert Enabled(s, e) && OnlyFlushed(s, Apply(s, e), l);
      var rest := Flush(Apply(s, e), l);
      steps := [e] + rest;
      assert steps[1..] == rest;
    }
  }

  lemma {:induction false} FlushAll(s: System, todo: set<Loader>) returns (steps: seq<Step>)
    requires todo <= s.loaders.Keys && s.queue == [] && forall l <- s.loaders :: l !in todo ==> s.loaders[l].pending == []
    ensures CanRun(s, steps) && forall e <- steps :: e.Send? || e.HandleNext?
    ensures var s' := Run(s, steps);
            && s'.queue == [] && s'.loaders.Keys == s.loaders.Keys
            && forall l <- s.loaders :: s'.loaders[l].pending == [] && s'.loaders[l].last == s.loaders[l].last
    decreases todo
  {
    hide Enabled, Apply, CanRun, Run;
    if l :| l in todo {
      var first := Flush(s, l);
      var rest := FlushAll(Run(s, first), todo - {l});
      RunInParts(s, first, rest);
      steps := first + rest;
    } else {
      steps := [];
      assert CanRun(s, []) && Run(s, []) == s by { NoSteps(s); }
    }
  }

  lemma NoSteps(s: System)
    ensures CanRun(s, []) && Run(s, []) == s
  {
  }

  /** From every reached state, without another event, what is on its way can be sent and handled, and then the
      connections are those that the loaders want now. */
  lemma WishesComeTrue(s0: System, steps: seq<Step>) returns (more: seq<Step>)
    requires Started(s0) && CanRun(s0, steps)
    ensures CanRun(Run(s0, steps), more) && forall e <- more :: e.Send? || e.HandleNext?
    ensures var s, done := Run(s0, steps), Run(Run(s0, steps), more);
            && (forall n :: n in done.view <==> exists l <- s.loaders :: n in s.loaders[l].last)
            && forall l <- s.loaders, n <- s.loaders[l].last ::
                 && done.view[n].target.addresses == s.loaders[l].last[n].addresses
                 && done.view[n].target.credentials == s.loaders[l].last[n].credentials
  {
    hide Enabled, Apply, CanRun, Run;
    var s := Run(s0, steps);
    var first := Drain(s);
    var rest := FlushAll(Run(s, first), s.loaders.Keys);
    RunInParts(s, first, rest);
    more := first + rest;
    RunInParts(s0, steps, more);
    Converged(s0, steps + more);
  }

  /** The channel can be emptied. */
  lemma {:induction false} Drain(s: System) returns (steps: seq<Step>)
    ensures CanRun(s, steps) && forall e <- steps :: e.HandleNext?
    ensures Run(s, steps).queue == [] && Run(s, steps).loaders == s.loaders
    decreases |s.queue|
  {
    if s.queue == [] {
      steps := [];
    } else {
      var rest := Drain(Apply(s, HandleNext));
      steps := [HandleNext] + rest;
      assert steps[1..] == rest;
    }
  }

  /** A loader that has got rid of its messages can announce any new configuration. */
  lemma CanAnnounce(s: System, l: Loader, c: Configuration, msg: Message)
    requires l in s.loaders && s.loaders[l].pending == [] && forall n <- c.target :: s.owner(n) == l
    requires msg.insert == Some(c) && forall n :: n in msg.remove <==> n in s.loaders[l].last && n !in c.target
    ensures Enabled(s, Poll(l, c, msg)) && Apply(s, Poll(l, c, msg)).loaders[l] == LoaderState(c.target, [msg])
  {
  }
}
