/**
 * One Subscribe call: devices write to the cache, written leaves pass through the gateway's transition buffer to
 * the matcher, the initial walk reads the cache, and both feed the queue that the sender empties.  The value of a
 * leaf is read when it is sent.
 */
module SubscribeProtocol {
  import opened Options
  import opened CoalesceQueue

  datatype Mode = Once | Stream | UpdatesOnly

  /** The leaves that one subscription selects.  Without a path it selects all that its prefix does. */
  datatype Subscription = Subscription(leaves: set<nat>, hasPath: bool)

  datatype Request = Request(mode: Mode, subscriptions: seq<Subscription>, permitted: set<nat>)

  /** `next` queries have begun, and the current one must still visit `left`. */
  datatype Walk = NotBegun | Walking(next: nat, left: set<nat>) | Walked

  datatype Sender = Idle | Took(leaf: nat) | Read(leaf: nat, version: nat)

  /** The gateway: the version of each leaf, the writes still to be announced, the transition buffer. */
  datatype Feed = Feed(cache: map<nat, nat>, storing: multiset<nat>, buffer: seq<nat>, pulled: Option<nat>)

  /** The call: the subscriptions registered for updates so far, the walk, the queue and its sender. */
  datatype Call = Call(listening: nat, walk: Walk, queue: Queue, sender: Sender)

  /** The client: the version that it was last sent of each leaf, the number of sync responses it was sent. */
  datatype Client = Client(sent: map<nat, nat>, syncs: nat)

  /** For the proofs only: the cache when the last subscription was registered and when the walk began, the version
      of each leaf when the walk visited it, the insertions into the queue and those accounted for. */
  datatype History =
    History(floor: map<nat, nat>, start: map<nat, nat>, visited: map<nat, nat>, inserted: nat, accounted: nat)

  datatype State = State(feed: Feed, call: Call, client: Client, history: History)

  datatype Step =
    | Write(leaf: nat)
    | Push(leaf: nat)
    | Pull
    | Match
    | Listen
    | BeginWalk
    | BeginQuery
    | Visit(leaf: nat)
    | EndWalk
    | Take
    | ReadValue
    | Send

  /** One of the first `n` subscriptions that have a path selects the leaf. */
  predicate Follows(r: Request, n: nat, leaf: nat) {
    && 0 < n <= |r.subscriptions|
    && ((r.subscriptions[n - 1].hasPath && leaf in r.subscriptions[n - 1].leaves) || Follows(r, n - 1, leaf))
  }

  /** A subscription from the `n`th on selects the leaf. */
  predicate Selects(r: Request, n: nat, leaf: nat)
    decreases |r.subscriptions| - n
  {
    n < |r.subscriptions| && (leaf in r.subscriptions[n].leaves || Selects(r, n + 1, leaf))
  }

  lemma {:induction false} FollowsMeans(r: Request, n: nat, leaf: nat)
    requires n <= |r.subscriptions|
    ensures Follows(r, n, leaf) <==>
      exists k :: 0 <= k < n && r.subscriptions[k].hasPath && leaf in r.subscriptions[k].leaves
  {
    if n > 0 {
      FollowsMeans(r, n - 1, leaf);
    }
  }

  lemma {:induction false} SelectsMeans(r: Request, n: nat, leaf: nat)
    ensures Selects(r, n, leaf) <==> exists k :: n <= k < |r.subscriptions| && leaf in r.subscriptions[k].leaves
    decreases |r.subscriptions| - n
  {
    if n < |r.subscriptions| {
      SelectsMeans(r, n + 1, leaf);
    }
  }

  /** An updates-only call starts with the sync marker in its queue. */
  function Opened(r: Request, feed: Feed): State {
    var queue := if r.mode.UpdatesOnly? then [Entry(SyncMarker, 0)] else [];
    State(feed, Call(0, NotBegun, queue, Idle), Client(map[], 0), History(feed.cache, map[], map[], |queue|, 0))
  }

  /** Only leaves of the cache are under way when a call opens. */
  predicate Initial(r: Request, s: State) {
    s == Opened(r, s.feed) && KnownFeed(s.feed)
  }

  predicate KnownFeed(f: Feed) {
    && (forall l <- f.storing :: l in f.cache)
    && (forall l <- f.buffer :: l in f.cache)
    && (f.pulled.Some? ==> f.pulled.value in f.cache)
  }

  predicate Enabled(r: Request, s: State, e: Step) {
    var f, c := s.feed, s.call;
    match e
    case Write(_) => true
    case Push(leaf) => leaf in f.storing
    case Pull => f.buffer != [] && f.pulled.None?
    case Match => f.pulled.Some?
    case Listen => !r.mode.Once? && c.listening < |r.subscriptions|
    case BeginWalk => c.walk.NotBegun? && (r.mode.Once? || (r.mode.Stream? && c.listening == |r.subscriptions|))
    case BeginQuery => c.walk.Walking? && c.walk.left == {} && c.walk.next < |r.subscriptions|
    case Visit(leaf) =>
      && c.walk.Walking? && 0 < c.walk.next <= |r.subscriptions|
      && leaf in r.subscriptions[c.walk.next - 1].leaves && leaf in f.cache
    case EndWalk => c.walk.Walking? && c.walk.left == {} && c.walk.next == |r.subscriptions|
    case Take => c.sender.Idle? && c.queue != []
    case ReadValue => c.sender.Took? && c.sender.leaf in f.cache
    case Send => c.sender.Read?
  }

  function FeedAfter(f: Feed, e: Step): Feed {
    match e
    case Write(leaf) =>
      f.(cache := f.cache[leaf := if leaf in f.cache then f.cache[leaf] + 1 else 0],
         storing := f.storing + multiset{leaf})
    case Push(leaf) => f.(storing := f.storing - multiset{leaf}, buffer := f.buffer + [leaf])
    case Pull => if f.buffer == [] then f else f.(pulled := Some(f.buffer[0]), buffer := f.buffer[1..])
    case Match => f.(pulled := None)
    case _ => f
  }

  /** What the step inserts into the queue. */
  function Insertion(r: Request, s: State, e: Step): Option<Item>
    requires Enabled(r, s, e)
  {
    match e
    case Match =>
      if Follows(r, s.call.listening, s.feed.pulled.value) then Some(Leaf(s.feed.pulled.value)) else None
    case Visit(leaf) => Some(Leaf(leaf))
    case EndWalk => Some(SyncMarker)
    case _ => None
  }

  function QueueAfter(r: Request, s: State, e: Step): Queue
    requires Enabled(r, s, e)
  {
    var i := Insertion(r, s, e);
    if i.Some? then Insert(s.call.queue, i.value)
    else if e.Take? then s.call.queue[1..]
    else s.call.queue
  }

  function WalkAfter(r: Request, s: State, e: Step): Walk
    requires Enabled(r, s, e)
  {
    var w := s.call.walk;
    match e
    case BeginWalk => Walking(0, {})
    case BeginQuery => Walking(w.next + 1, r.subscriptions[w.next].leaves * s.feed.cache.Keys)
    case Visit(leaf) => w.(left := w.left - {leaf})
    case EndWalk => Walked
    case _ => w
  }

  /** The sender takes the first item, reads the value of a leaf only then, and sends what is permitted. */
  function SenderAfter(r: Request, s: State, e: Step): Sender
    requires Enabled(r, s, e)
  {
    match e
    case Take => if s.call.queue[0].item.Leaf? then Took(s.call.queue[0].item.leaf) else Idle
    case ReadValue => Read(s.call.sender.leaf, s.feed.cache[s.call.sender.leaf])
    case Send => Idle
    case _ => s.call.sender
  }

  function ClientAfter(r: Request, s: State, e: Step): Client
    requires Enabled(r, s, e)
  {
    if e.Take? && s.call.queue[0].item.SyncMarker? then s.client.(syncs := s.client.syncs + 1)
    else if e.Send? && s.call.sender.leaf in r.permitted then
      s.client.(sent := s.client.sent[s.call.sender.leaf := s.call.sender.version])
    else s.client
  }

  function HistoryAfter(r: Request, s: State, e: Step): History
    requires Enabled(r, s, e)
  {
    var h, cache := s.history, s.feed.cache;
    match e
    case Listen => h.(floor := cache)
    case BeginWalk => h.(start := cache)
    case Visit(leaf) => h.(visited := h.visited[leaf := cache[leaf]], inserted := h.inserted + 1)
    case Take => h.(accounted := h.accounted + 1 + s.call.queue[0].dup)
    case _ => if Insertion(r, s, e).Some? then h.(inserted := h.inserted + 1) else h
  }

  function Apply(r: Request, s: State, e: Step): State
    requires Enabled(r, s, e)
  {
    var listening := if e.Listen? then s.call.listening + 1 else s.call.listening;
    State(FeedAfter(s.feed, e),
          Call(listening, WalkAfter(r, s, e), QueueAfter(r, s, e), SenderAfter(r, s, e)),
          ClientAfter(r, s, e), HistoryAfter(r, s, e))
  }

  predicate CanRun(r: Request, s: State, run: seq<Step>)
    decreases run
  {
    run != [] ==> Enabled(r, s, run[0]) && CanRun(r, Apply(r, s, run[0]), run[1..])
  }

  function Run(r: Request, s: State, run: seq<Step>): State
    requires CanRun(r, s, run)
    decreases run
  {
    if run == [] then s else Run(r, Apply(r, s, run[0]), run[1..])
  }
}
