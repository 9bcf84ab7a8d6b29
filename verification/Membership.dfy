/** Watching the other members of the cluster: snapshots of the member tree, taken under one-shot watches, are turned
    into additions and removals. */
module Membership {

  datatype Event = Added(member: string) | Removed(member: string)

  // ----- one round of the watch loop -----

  predicate Distinct(s: seq<string>) {
    forall i, j :: 0 <= i < j < |s| ==> s[i] != s[j]
  }

  function Elements(s: seq<string>): (r: set<string>)
    ensures forall m :: m in r <==> m in s
  {
    if s == [] then {} else
      assert s == s[..|s| - 1] + [s[|s| - 1]];
      Elements(s[..|s| - 1]) + {s[|s| - 1]}
  }

  /** The other members among the children, in their order. */
  function Others(children: seq<string>, self: string): seq<string> {
    if children == [] then []
    else
      var m := children[|children| - 1];
      var before := Others(children[..|children| - 1], self);
      if m == self then before else before + [m]
  }

  function Adds(children: seq<string>, previous: seq<string>, self: string): seq<Event> {
    if children == [] then []
    else
      var m := children[|children| - 1];
      var before := Adds(children[..|children| - 1], previous, self);
      if m == self || m in previous then before else before + [Added(m)]
  }

  function Removes(previous: seq<string>, current: seq<string>, self: string): seq<Event> {
    if previous == [] then []
    else
      var m := previous[|previous| - 1];
      var before := Removes(previous[..|previous| - 1], current, self);
      if m == self || m in current then before else before + [Removed(m)]
  }

  /** All that is reported when the previous snapshot is followed by a new one. */
  function Report(previous: seq<string>, children: seq<string>, self: string): seq<Event> {
    Adds(children, previous, self) + Removes(previous, Others(children, self), self)
  }

  method MemberIDInSlice(s: string, list: seq<string>) returns (found: bool)
    ensures found <==> s in list
  {
    for i := 0 to |list|
      invariant s !in list[..i]
    {
      if list[i] == s {
        return true;
      }
    }
    return false;
  }

  /** The body of the loop after a successful read: the calls of the callback, and the members for the next round. */
  method Round(self: string, previous: seq<string>, children: seq<string>) returns (events: seq<Event>, current: seq<string>)
    ensures current == Others(children, self) && events == Report(previous, children, self)
  {
    events, current := [], [];
    for i := 0 to |children|
      invariant current == Others(children[..i], self) && events == Adds(children[..i], previous, self)
    {
      assert children[..i + 1][..i] == children[..i];
      if children[i] != self {
        var known := MemberIDInSlice(children[i], previous);
        if !known {
          events := events + [Added(children[i])];
        }
        current := current + [children[i]];
      }
    }
    assert children[..|children|] == children;
    for i := 0 to |previous|
      invariant events == Adds(children, previous, self) + Removes(previous[..i], current, self)
    {
      assert previous[..i + 1][..i] == previous[..i];
      if previous[i] != self {
        var still := MemberIDInSlice(previous[i], current);
        if !still {
          events := events + [Removed(previous[i])];
        }
      }
    }
    assert previous[..|previous|] == previous;
  }

  // ----- what the events add up to -----

  function Fold(members: set<string>, events: seq<Event>): set<string> {
    if events == [] then members
    else
      var before, e := Fold(members, events[..|events| - 1]), events[|events| - 1];
      match e
      case Added(m) => before + {m}
      case Removed(m) => before - {m}
  }

  /** After some events a member is present exactly if the last of them about it added it, or it was there and none is
      about it. */
  lemma {:induction false} FoldMeans(members: set<string>, events: seq<Event>, m: string)
    ensures m in Fold(members, events) <==>
      || (m in members && forall e <- events :: e.member != m)
      || exists k :: 0 <= k < |events| && events[k] == Added(m) && forall j :: k < j < |events| ==> events[j].member != m
  {
    if events != [] {
      var n := |events| - 1;
      FoldMeans(members, events[..n], m);
      assert events == events[..n] + [events[n]];
      if events[n].member == m {
      } else if exists k :: 0 <= k < n && events[..n][k] == Added(m) && forall j :: k < j < n ==> events[..n][j].member != m {
        var k :| 0 <= k < n && events[..n][k] == Added(m) && forall j :: k < j < n ==> events[..n][j].member != m;
        assert events[k] == Added(m) && forall j :: k < j < |events| ==> j == n || events[j] == events[..n][j];
      } else {
        forall k | 0 <= k < |events| && events[k] == Added(m)
          ensures exists j :: k < j < |events| && events[j].member == m
        {
          assert k < n && events[..n][k] == Added(m);
          var j :| k < j < n && events[..n][j].member == m;
          assert events[j].member == m;
        }
      }
    }
  }

  /** No member is added that is present, removed that is absent, and none of the events is about oneself. */
  predicate Sensible(members: set<string>, events: seq<Event>, self: string) {
    forall k :: 0 <= k < |events| ==>
      && events[k].member != self
      && (events[k].Added? <==> events[k].member !in Fold(members, events[..k]))
  }

  lemma {:induction false} FoldAppend(members: set<string>, a: seq<Event>, b: seq<Event>)
    ensures Fold(members, a + b) == Fold(Fold(members, a), b)
    decreases |b|
  {
    if b == [] {
      assert a + b == a;
    } else {
      var last := |b| - 1;
      assert (a + b)[..|a + b| - 1] == a + b[..last];
      FoldAppend(members, a, b[..last]);
    }
  }

  lemma SensibleAppend(members: set<string>, a: seq<Event>, b: seq<Event>, self: string)
    requires Sensible(members, a, self) && Sensible(Fold(members, a), b, self)
    ensures Sensible(members, a + b, self)
  {
    forall k | 0 <= k < |a + b|
      ensures (a + b)[k].member != self
      ensures (a + b)[k].Added? <==> (a + b)[k].member !in Fold(members, (a + b)[..k])
    {
      if k < |a| {
        assert (a + b)[..k] == a[..k];
      } else {
        assert (a + b)[..k] == a + b[..k - |a|];
        FoldAppend(members, a, b[..k - |a|]);
      }
    }
  }

  lemma AtTheEnd(s: seq<string>)
    requires s != []
    ensures Distinct(s) <==> Distinct(s[..|s| - 1]) && s[|s| - 1] !in s[..|s| - 1]
  {
    assert s == s[..|s| - 1] + [s[|s| - 1]];
  }

  lemma OneMoreEvent(members: set<string>, before: seq<Event>, e: Event, self: string)
    requires Sensible(members, before, self) && e.member != self && (e.Added? <==> e.member !in Fold(members, before))
    ensures Sensible(members, before + [e], self)
    ensures Fold(members, before + [e]) ==
              if e.Added? then Fold(members, before) + {e.member} else Fold(members, before) - {e.member}
  {
    assert (before + [e])[..|before|] == before;
    assert Sensible(Fold(members, before), [e], self) by {
      assert [e][..0] == [];
    }
    SensibleAppend(members, before, [e], self);
  }

  lemma {:induction false} OthersAre(children: seq<string>, self: string)
    ensures Elements(Others(children, self)) == Elements(children) - {self}
    ensures Distinct(children) ==> Distinct(Others(children, self))
  {
    if children != [] {
      var init, m := children[..|children| - 1], children[|children| - 1];
      AtTheEnd(children);
      OthersAre(init, self);
      if m != self {
        var others := Others(init, self) + [m];
        assert others[..|others| - 1] == Others(init, self) && (m in Others(init, self) <==> m in Elements(Others(init, self)));
        AtTheEnd(others);
      }
    }
  }

  lemma {:induction false} AddsAddUp(children: seq<string>, previous: seq<string>, self: string)
    requires Distinct(children)
    ensures Fold(Elements(previous), Adds(children, previous, self)) == Elements(previous) + (Elements(children) - {self})
    ensures Sensible(Elements(previous), Adds(children, previous, self), self)
  {
    if children != [] {
      var init, m := children[..|children| - 1], children[|children| - 1];
      AtTheEnd(children);
      AddsAddUp(init, previous, self);
      hide Sensible, Distinct, Fold, Elements;
      if m != self && m !in previous {
        OneMoreEvent(Elements(previous), Adds(init, previous, self), Added(m), self);
      }
    }
  }

  lemma {:induction false} RemovesAddUp(members: set<string>, previous: seq<string>, current: seq<string>, self: string)
    requires Distinct(previous) && Elements(previous) <= members
    ensures Fold(members, Removes(previous, current, self)) == members - (Elements(previous) - Elements(current) - {self})
    ensures Sensible(members, Removes(previous, current, self), self)
  {
    if previous != [] {
      var init, m := previous[..|previous| - 1], previous[|previous| - 1];
      AtTheEnd(previous);
      RemovesAddUp(members, init, current, self);
      hide Sensible, Distinct, Fold, Elements;
      if m != self && m !in current {
        OneMoreEvent(members, Removes(init, current, self), Removed(m), self);
      }
    }
  }

  /** What a round reports leads from the previous members to the present ones, without superfluous events. */
  lemma ReportAddsUp(previous: seq<string>, children: seq<string>, self: string)
    requires Distinct(children) && Distinct(previous) && self !in previous
    ensures Fold(Elements(previous), Report(previous, children, self)) == Elements(children) - {self}
    ensures Sensible(Elements(previous), Report(previous, children, self), self)
    ensures forall k :: 0 <= k < |Report(previous, children, self)| ==>
      var e := Report(previous, children, self)[k];
      && e.member != self
      && (e.Added? <==> e.member !in Fold(Elements(previous), Report(previous, children, self)[..k]))
  {
    var current := Others(children, self);
    AddsAddUp(children, previous, self);
    OthersAre(children, self);
    var adds, removes := Adds(children, previous, self), Removes(previous, current, self);
    RemovesAddUp(Fold(Elements(previous), adds), previous, current, self);
    FoldAppend(Elements(previous), adds, removes);
    SensibleAppend(Elements(previous), adds, removes, self);
  }

  // ----- the watch loop as a step machine -----

  /** `Delivering` holds the calls of the callback still to be made; `fired` says whether the watch has fired. */
  datatype Pc =
    | Reading
    | Delivering(rest: seq<Event>, fired: bool)
    | Waiting(fired: bool)
    | Panicked
    | Ended

  /** `tree` is the set of member nodes; `emitted` holds all calls of the callback made so far. */
  datatype Watch = Watch(
    self: string, tree: set<string>, previous: seq<string>, errors: nat, stopped: bool, pc: Pc, emitted: seq<Event>)

  datatype Step =
    | NodeCreated(member: string)
    | NodeDeleted(member: string)
    | SessionEvent
    | Cancel
    | Read(children: seq<string>)
    | ReadFails
    | Panic
    | Deliver
    | Wait
    | WakeUp

  const MAX_ERRORS := 3

  function Initially(self: string, tree: set<string>): Watch {
    Watch(self, tree, [], 0, false, Reading, [])
  }

  predicate Enabled(w: Watch, step: Step) {
    match step
    case NodeCreated(m) => m !in w.tree
    case NodeDeleted(m) => m in w.tree
    case SessionEvent => true
    case Cancel => true
    case Read(children) => w.pc.Reading? && w.errors <= MAX_ERRORS && Distinct(children) && Elements(children) == w.tree
    case ReadFails => w.pc.Reading? && w.errors <= MAX_ERRORS
    case Panic => w.pc.Reading? && w.errors > MAX_ERRORS
    case Deliver => w.pc.Delivering? && w.pc.rest != []
    case Wait => w.pc.Delivering? && w.pc.rest == []
    case WakeUp => w.pc == Waiting(true)
  }

  /** An armed watch fires once. */
  function Fire(pc: Pc): Pc {
    match pc
    case Delivering(rest, _) => Delivering(rest, true)
    case Waiting(_) => Waiting(true)
    case _ => pc
  }

  /** The head of the loop. */
  function Again(w: Watch): Pc {
    if w.stopped then Ended else Reading
  }

  function Apply(w: Watch, step: Step): Watch
    requires Enabled(w, step)
  {
    match step
    case NodeCreated(m) => w.(tree := w.tree + {m}, pc := Fire(w.pc))
    case NodeDeleted(m) => w.(tree := w.tree - {m}, pc := Fire(w.pc))
    case SessionEvent => w.(pc := Fire(w.pc))
    case Cancel => w.(stopped := true)
    case Read(children) =>
      w.(errors := 0, previous := Others(children, w.self), pc := Delivering(Report(w.previous, children, w.self), false))
    case ReadFails => w.(errors := w.errors + 1, pc := Again(w))
    case Panic => w.(pc := Panicked)
    case Deliver => w.(emitted := w.emitted + [w.pc.rest[0]], pc := Delivering(w.pc.rest[1..], w.pc.fired))
    case Wait => w.(pc := Waiting(w.pc.fired))
    case WakeUp => w.(pc := Again(w))
  }

  /** What the callback has been told, or will be told without another read. */
  function Told(w: Watch): seq<Event> {
    w.emitted + if w.pc.Delivering? then w.pc.rest else []
  }

  predicate Unfired(pc: Pc) {
    (pc.Delivering? || pc.Waiting?) && !pc.fired
  }

  ghost predicate WatchInv(w: Watch) {
    && Distinct(w.previous) && w.self !in w.previous
    && Fold({}, Told(w)) == Elements(w.previous)
    && Sensible({}, Told(w), w.self)
    && (Unfired(w.pc) ==> Elements(w.previous) == w.tree - {w.self})
  }

  lemma StepKeepsInv(w: Watch, step: Step)
    requires WatchInv(w) && Enabled(w, step)
    ensures WatchInv(Apply(w, step))
  {
    var w' := Apply(w, step);
    match step {
      case Read(children) =>
        assert Told(w) == w.emitted;
        ReportAddsUp(w.previous, children, w.self);
        OthersAre(children, w.self);
        FoldAppend({}, w.emitted, w'.pc.rest);
        SensibleAppend({}, w.emitted, w'.pc.rest, w.self);
      case Deliver =>
        assert Told(w') == Told(w) by {
          assert w.pc.rest == [w.pc.rest[0]] + w.pc.rest[1..];
        }
      case _ =>
        assert Told(w') == Told(w);
    }
  }

  predicate CanRun(w: Watch, steps: seq<Step>)
    decreases |steps|
  {
    steps == [] || (Enabled(w, steps[0]) && CanRun(Apply(w, steps[0]), steps[1..]))
  }

  function Run(w: Watch, steps: seq<Step>): Watch
    requires CanRun(w, steps)
    decreases |steps|
  {
    if steps == [] then w else Run(Apply(w, steps[0]), steps[1..])
  }

  lemma {:induction false} RunKeepsInv(w: Watch, steps: seq<Step>)
    requires WatchInv(w) && CanRun(w, steps)
    ensures WatchInv(Run(w, steps))
    decreases |steps|
  {
    if steps != [] {
      StepKeepsInv(w, steps[0]);
      RunKeepsInv(Apply(w, steps[0]), steps[1..]);
    }
  }

  lemma SensiblePrefix(members: set<string>, a: seq<Event>, b: seq<Event>, self: string)
    requires Sensible(members, a + b, self)
    ensures Sensible(members, a, self)
  {
    forall k | 0 <= k < |a|
      ensures a[k].member != self && (a[k].Added? <==> a[k].member !in Fold(members, a[..k]))
    {
      assert (a + b)[k] == a[k] && (a + b)[..k] == a[..k];
    }
  }

  /** For every run: the events make sense one by one; once they are delivered they add up to the last snapshot, which
      is the live membership as long as the watch has not fired. */
  lemma WatchTellsTheMembers(self: string, tree: set<string>, steps: seq<Step>)
    requires CanRun(Initially(self, tree), steps)
    ensures var w := Run(Initially(self, tree), steps);
            && (forall k :: 0 <= k < |w.emitted| ==>
                  && w.emitted[k].member != self
                  && (w.emitted[k].Added? <==> w.emitted[k].member !in Fold({}, w.emitted[..k])))
            && (!w.pc.Delivering? ==> Fold({}, w.emitted) == Elements(w.previous))
            && (w.pc == Waiting(false) ==> Fold({}, w.emitted) == w.tree - {self})
  {
    var w0 := Initially(self, tree);
    RunKeepsInv(w0, steps);
    SelfStays(w0, steps);
    var w := Run(w0, steps);
    SensiblePrefix({}, w.emitted, Told(w)[|w.emitted|..], self);
    assert Told(w) == w.emitted + Told(w)[|w.emitted|..];
    assert !w.pc.Delivering? ==> Told(w) == w.emitted;
  }

  lemma {:induction false} SelfStays(w: Watch, steps: seq<Step>)
    requires CanRun(w, steps)
    ensures Run(w, steps).self == w.self
    decreases |steps|
  {
    if steps != [] {
      SelfStays(Apply(w, steps[0]), steps[1..]);
    }
  }

  // ----- the loop goes on -----

  lemma {:induction false} RunInParts(w: Watch, a: seq<Step>, b: seq<Step>)
    requires CanRun(w, a + b)
    ensures CanRun(w, a) && CanRun(Run(w, a), b) && Run(w, a + b) == Run(Run(w, a), b)
    decreases |a|
  {
    if a == [] {
      assert a + b == b;
    } else {
      assert (a + b)[0] == a[0] && (a + b)[1..] == a[1..] + b;
      RunInParts(Apply(w, a[0]), a[1..], b);
    }
  }

  /** The reads that have failed since the last one that succeeded. */
  function FailedReads(steps: seq<Step>): nat {
    if steps == [] then 0
    else
      var before := FailedReads(steps[..|steps| - 1]);
      match steps[|steps| - 1]
      case ReadFails => before + 1
      case Read(_) => 0
      case _ => before
  }

  /** Where the loop is, and that it is stopped, follows from what has happened. */
  predicate Explained(w: Watch, steps: seq<Step>) {
    && (w.stopped <==> Cancel in steps)
    && (w.pc.Ended? ==> Cancel in steps)
    && (!w.pc.Panicked? ==> w.errors == FailedReads(steps))
    && (w.pc.Panicked? ==> FailedReads(steps) > 3)
  }

  lemma {:induction false} AlwaysExplained(self: string, tree: set<string>, steps: seq<Step>)
    requires CanRun(Initially(self, tree), steps)
    ensures Explained(Run(Initially(self, tree), steps), steps)
  {
    if steps != [] {
      var n := |steps| - 1;
      var w0 := Initially(self, tree);
      assert steps == steps[..n] + [steps[n]];
      RunInParts(w0, steps[..n], [steps[n]]);
      AlwaysExplained(self, tree, steps[..n]);
      var w := Run(w0, steps[..n]);
      assert Run(w, [steps[n]]) == Apply(w, steps[n]);
    }
  }

  lemma {:induction false} LastFailure(steps: seq<Step>) returns (k: nat)
    requires FailedReads(steps) > 0
    ensures k < |steps| && steps[k].ReadFails? && FailedReads(steps[..k]) == FailedReads(steps) - 1
    ensures forall j :: k <= j < |steps| ==> !steps[j].Read?
  {
    var n := |steps| - 1;
    if steps[n].ReadFails? {
      k := n;
    } else {
      k := LastFailure(steps[..n]);
      assert steps[..n][..k] == steps[..k] && steps[..n][k] == steps[k];
      assert forall j :: k <= j < n ==> steps[j] == steps[..n][j];
    }
  }

  lemma FourFailures(steps: seq<Step>) returns (a: nat, b: nat, c: nat, d: nat)
    requires FailedReads(steps) > 3
    ensures a < b < c < d < |steps|
    ensures steps[a].ReadFails? && steps[b].ReadFails? && steps[c].ReadFails? && steps[d].ReadFails?
    ensures forall j :: a <= j < |steps| ==> !steps[j].Read?
  {
    d := LastFailure(steps);
    c := LastFailure(steps[..d]);
    assert steps[..d][..c] == steps[..c];
    b := LastFailure(steps[..c]);
    assert steps[..c][..b] == steps[..b];
    a := LastFailure(steps[..b]);
    forall j | a <= j < |steps|
      ensures !steps[j].Read?
    {
      assert j < d ==> steps[..d][j] == steps[j];
      assert j < c ==> steps[..c][j] == steps[j];
      assert j < b ==> steps[..b][j] == steps[j];
    }
  }

  /** The loop ends only after it has been cancelled. */
  lemma EndsOnlyWhenCancelled(self: string, tree: set<string>, steps: seq<Step>)
    requires CanRun(Initially(self, tree), steps) && Run(Initially(self, tree), steps).pc.Ended?
    ensures Cancel in steps
  {
    AlwaysExplained(self, tree, steps);
  }

  /** It panics only after more than three reads have failed with no successful one between or after them. */
  lemma PanicsOnlyAfterFour(self: string, tree: set<string>, steps: seq<Step>) returns (a: nat, b: nat, c: nat, d: nat)
    requires CanRun(Initially(self, tree), steps) && Run(Initially(self, tree), steps).pc.Panicked?
    ensures a < b < c < d < |steps|
    ensures steps[a].ReadFails? && steps[b].ReadFails? && steps[c].ReadFails? && steps[d].ReadFails?
    ensures forall j :: a <= j < |steps| ==> !steps[j].Read?
  {
    AlwaysExplained(self, tree, steps);
    a, b, c, d := FourFailures(steps);
  }

  /** The steps by which the callback is called for each of the events. */
  function Deliveries(n: nat): seq<Step> {
    if n == 0 then [] else [Deliver] + Deliveries(n - 1)
  }

  lemma {:induction false} DeliversAll(w: Watch)
    requires w.pc.Delivering?
    ensures CanRun(w, Deliveries(|w.pc.rest|))
    ensures Run(w, Deliveries(|w.pc.rest|)) == w.(emitted := w.emitted + w.pc.rest, pc := Delivering([], w.pc.fired))
    decreases |w.pc.rest|
  {
    if w.pc.rest == [] {
      assert w.emitted + [] == w.emitted;
    } else {
      var n := |w.pc.rest|;
      var next := Apply(w, Deliver);
      DeliversAll(next);
      assert Deliveries(n)[0] == Deliver && Deliveries(n)[1..] == Deliveries(n - 1);
      assert w.emitted + [w.pc.rest[0]] + w.pc.rest[1..] == w.emitted + w.pc.rest;
    }
  }

  /** Whenever the watch of a loop that is not cancelled has fired, the loop wakes up and reads any listing of the tree;
      once that is delivered, if nothing changes meanwhile, the callback has been told exactly the other members. */
  lemma WakesUpAndTells(self: string, tree: set<string>, steps: seq<Step>, children: seq<string>)
    requires CanRun(Initially(self, tree), steps) && Cancel !in steps
    requires Run(Initially(self, tree), steps).pc == Waiting(true)
    requires Distinct(children) && Elements(children) == Run(Initially(self, tree), steps).tree
    ensures var w := Run(Initially(self, tree), steps);
            Enabled(w, WakeUp) && Enabled(Apply(w, WakeUp), Read(children))
    ensures var read := Apply(Apply(Run(Initially(self, tree), steps), WakeUp), Read(children));
            && read.pc.Delivering? && CanRun(read, Deliveries(|read.pc.rest|))
            && Fold({}, Run(read, Deliveries(|read.pc.rest|)).emitted) == Run(Initially(self, tree), steps).tree - {self}
  {
    var w0 := Initially(self, tree);
    var w := Run(w0, steps);
    AlwaysExplained(self, tree, steps);
    WaitsWithoutErrors(self, tree, steps);
    RunKeepsInv(w0, steps);
    SelfStays(w0, steps);
    var woken := Apply(w, WakeUp);
    StepKeepsInv(w, WakeUp);
    var read := Apply(woken, Read(children));
    StepKeepsInv(woken, Read(children));
    DeliversAll(read);
    assert Unfired(read.pc) && Told(read) == read.emitted + read.pc.rest;
  }

  /** Whoever waits has just read without an error. */
  lemma {:induction false} WaitsWithoutErrors(self: string, tree: set<string>, steps: seq<Step>)
    requires CanRun(Initially(self, tree), steps)
    ensures var w := Run(Initially(self, tree), steps); w.pc.Delivering? || w.pc.Waiting? ==> w.errors == 0
  {
    if steps != [] {
      var n := |steps| - 1;
      var w0 := Initially(self, tree);
      assert steps == steps[..n] + [steps[n]];
      RunInParts(w0, steps[..n], [steps[n]]);
      WaitsWithoutErrors(self, tree, steps[..n]);
      var w := Run(w0, steps[..n]);
      assert Run(w, [steps[n]]) == Apply(w, steps[n]);
    }
  }

  /** A loop that is neither over nor waiting for its watch can always take a step of its own, and the watch of one that
      waits fires on any change of the tree. */
  lemma NeverStuck(w: Watch, children: seq<string>)
    requires Distinct(children) && Elements(children) == w.tree && !w.pc.Panicked? && !w.pc.Ended?
    ensures w.pc.Reading? ==>
      if w.errors > 3 then Enabled(w, Panic) else Enabled(w, Read(children)) && Enabled(w, ReadFails)
    ensures w.pc.Delivering? ==> Enabled(w, Deliver) || Enabled(w, Wait)
    ensures w.pc == Waiting(true) ==> Enabled(w, WakeUp)
    ensures w.pc == Waiting(false) ==> forall m: string ::
      var change := if m in w.tree then NodeDeleted(m) else NodeCreated(m);
      Enabled(w, change) && Apply(w, change).pc == Waiting(true)
  {
  }
}
