/**
 * `GraphTraverser._drive_queue` and `_route_or_collapse_at_barrier`
 * (node/runtime/fsm/traverser.py): the bounded run queue over branch cursors, first as a
 * function on the driver's state, then as the class that updates that state in place.
 */
module QueueDriver {
  import opened Wrappers
  import opened PtaLedger
  import opened BranchCursors
  import opened JoinBarrier
  import opened QueueBooks
  import BranchRuntime

  /** What executing one node leads to. */
  datatype Reply =
    | Yield(meta: map<string, string>)   // the executor asks for a human: park, with merged metadata
    | Forked(children: Cursors)          // a committed fork
    | Stepped(next: BranchCursor)        // a committed step, or a committed fallback
    | Aborted                            // the exception is re-raised

  type Executor = (nat, BranchCursor) -> Reply

  /**
   * What a traversal is given. `anchors(k)` is the pointer at which its k-th merge is anchored;
   * None when that merge raises, because its commit is refused or its payload too large.
   */
  datatype Config = Config(joins: set<string>, arbiter: Cursors -> int, baseStream: string,
                           anchors: nat -> Option<Pointer>)

  /** The driver's state; once an exception has been raised, `stranded` is what the code held then. */
  datatype Desk = Desk(queue: Cursors, waiting: Buckets, completed: Cursors, parked: map<string, BranchCursor>,
                       expected: int, ticks: nat, collapses: nat, raised: bool, stranded: Cursors, books: Books)

  // --- The steps -----------------------------------------------------------------------------------------

  /**
   * What a join makes of its cursors: the arbiter's choice, on the base stream, with the fuel of
   * all of them; None when the arbiter's index is invalid or the commit raises.
   */
  function Joint(ready: Cursors, k: nat, cfg: Config): Option<BranchCursor> {
    match (BranchRuntime.Merged(ready, cfg.arbiter(ready), cfg.baseStream), cfg.anchors(k))
    case (Some(merged), Some(pointer)) => Some(merged.(pointer := pointer))
    case _ => None
  }

  /** The released cursors merge into one, or stay in the hands of the raising code. */
  function Collapse(d: Desk, ready: Cursors, cfg: Config): Desk {
    match Joint(ready, d.collapses, cfg)
    case None => d.(raised := true, stranded := ready)
    case Some(merged) =>
      d.(queue := d.queue + [merged], expected := 1, collapses := d.collapses + 1,
         books := Recorded(d.books, Commit(ready, [merged])))
  }

  /** A cursor at a join node waits; when the expected number has arrived they merge into one. */
  function Await(d: Desk, c: BranchCursor, cfg: Config): Desk {
    var a := ArriveResult(d.waiting, c, d.expected);
    var e := d.(waiting := AfterArrive(d.waiting, c, d.expected), books := Arrived(d.books, d.waiting, c));
    if a.fired then Collapse(e, a.ready, cfg) else e
  }

  /** `_route_or_collapse_at_barrier` and the two lines every caller runs after it. */
  function Route(d: Desk, c: BranchCursor, cfg: Config): Desk {
    if d.expected > 1 && c.node in cfg.joins then Await(d, c, cfg) else d.(queue := d.queue + [c])
  }

  /** One after the other; an exception leaves the rest in the hands of the code. */
  function RouteEach(d: Desk, cs: Cursors, cfg: Config): Desk
    decreases |cs|
  {
    if d.raised then d.(stranded := d.stranded + cs)
    else if cs == [] then d
    else RouteEach(Route(d, cs[0], cfg), cs[1..], cfg)
  }

  function Park(d: Desk, c: BranchCursor, meta: map<string, string>): Desk {
    d.(parked := d.parked[c.streamId := c.(meta := meta)], books := Parked(d.books, c, meta))
  }

  function Forking(d: Desk, c: BranchCursor, children: Cursors): Desk {
    d.(expected := |children|, books := Recorded(d.books, Commit([c], children)))
  }

  /**
   * A committed fork. When routing a child raises, the `except` clause re-raises or falls back on
   * the parent, whose pointer the fork has spent, so that the ledger refuses it
   * (`PtaLedger.SpentStaysRefused`): it raises either way.
   */
  function Fan(d: Desk, c: BranchCursor, children: Cursors, cfg: Config): Desk {
    RouteEach(Forking(d, c, children), children, cfg)
  }

  function Advance(d: Desk, c: BranchCursor, next: BranchCursor, cfg: Config): Desk {
    var e := d.(books := Recorded(d.books, Commit([c], [next])));
    if IsTerminated(next) then e.(completed := e.completed + [next]) else Route(e, next, cfg)
  }

  function Answer(d: Desk, c: BranchCursor, reply: Reply, cfg: Config): Desk {
    match reply
    case Yield(meta) => Park(d, c, meta)
    case Forked(children) => Fan(d, c, children, cfg)
    case Stepped(next) => Advance(d, c, next, cfg)
    case Aborted => d.(raised := true, stranded := [c])
  }

  /** The head of the queue is taken; a terminated cursor is completed, any other costs a tick. */
  function Taken(d: Desk): Desk
    requires d.queue != []
  {
    var c, e := d.queue[0], d.(queue := d.queue[1..]);
    if IsTerminated(c) then e.(completed := e.completed + [c])
    else e.(ticks := e.ticks + 1, books := Executed(e.books, c))
  }

  predicate Runs(d: Desk, maxTicks: int) {
    !d.raised && d.queue != [] && d.ticks < maxTicks
  }

  /** One turn of the loop of `_drive_queue`. */
  function Turn(d: Desk, replies: Executor, cfg: Config): Desk
    requires d.queue != []
  {
    var c, e := d.queue[0], Taken(d);
    if IsTerminated(c) then e else Answer(e, c, replies(e.ticks, c), cfg)
  }

  /** The loop of `_drive_queue`; it ends by the pair (ticks left, length of the queue). */
  function Drive(d: Desk, replies: Executor, cfg: Config, maxTicks: int): Desk
    decreases if maxTicks > d.ticks then maxTicks - d.ticks else 0, |d.queue|
  {
    if !Runs(d, maxTicks) then d
    else
      TurnTicks(d, replies, cfg);
      Drive(Turn(d, replies, cfg), replies, cfg, maxTicks)
  }

  ghost predicate SameCounts(e: Desk, d: Desk) {
    && e.ticks == d.ticks && e.books.executed == d.books.executed && e.books.initial == d.books.initial
  }

  ghost predicate SameParking(e: Desk, d: Desk) {
    e.parked == d.parked && e.books.parkedAs == d.books.parkedAs && e.books.parkedFrom == d.books.parkedFrom
  }

  lemma {:induction false} RouteTicks(d: Desk, c: BranchCursor, cfg: Config)
    ensures SameCounts(Route(d, c, cfg), d) && SameParking(Route(d, c, cfg), d) &&
            Route(d, c, cfg).completed == d.completed
  {
  }

  lemma {:induction false} RouteEachTicks(d: Desk, cs: Cursors, cfg: Config)
    ensures SameCounts(RouteEach(d, cs, cfg), d) && SameParking(RouteEach(d, cs, cfg), d)
    ensures RouteEach(d, cs, cfg).completed == d.completed
    decreases |cs|
  {
    if !d.raised && cs != [] {
      RouteTicks(d, cs[0], cfg);
      RouteEachTicks(Route(d, cs[0], cfg), cs[1..], cfg);
    }
  }

  /** No answer touches the tick count; only a terminated successor is completed, and only a yield parks. */
  lemma {:induction false} AnswerTicks(d: Desk, c: BranchCursor, reply: Reply, cfg: Config)
    ensures var e := Answer(d, c, reply, cfg);
            && SameCounts(e, d)
            && (e.completed == d.completed
                || (reply.Stepped? && IsTerminated(reply.next) && e.completed == d.completed + [reply.next]))
            && (!reply.Yield? ==> SameParking(e, d))
  {
    match reply {
      case Forked(children) => RouteEachTicks(Forking(d, c, children), children, cfg);
      case Stepped(next) => RouteTicks(d.(books := Recorded(d.books, Commit([c], [next]))), next, cfg);
      case _ =>
    }
  }

  lemma {:induction false} TurnTicks(d: Desk, replies: Executor, cfg: Config)
    requires d.queue != []
    ensures if IsTerminated(d.queue[0])
            then Turn(d, replies, cfg).ticks == d.ticks && |Turn(d, replies, cfg).queue| == |d.queue| - 1
            else Turn(d, replies, cfg).ticks == d.ticks + 1
    ensures Turn(d, replies, cfg).books.initial == d.books.initial
  {
    var c, e := d.queue[0], Taken(d);
    if !IsTerminated(c) { AnswerTicks(e, c, replies(e.ticks, c), cfg); }
  }

  // --- What every step keeps ---------------------------------------------------------------------------

  /** Every live cursor is accounted for, with `rest` and whatever is stranded held by the code. */
  ghost predicate Holds(d: Desk, rest: Cursors) {
    && (!d.raised ==> d.stranded == [])
    && Accounted(d.books, d.queue, d.completed, d.waiting, d.stranded + rest)
  }

  /** Ticks count executed nodes and stay within the bound; completed cursors are terminated, executed ones are not. */
  ghost predicate Tallied(d: Desk, maxTicks: int) {
    && |d.books.executed| == d.ticks && (d.ticks > 0 ==> d.ticks <= maxTicks)
    && (forall c :: c in d.completed ==> IsTerminated(c))
    && (forall c :: c in d.books.executed ==> !IsTerminated(c))
  }

  lemma NoRest(s: Cursors)
    ensures s + [] == s && [] + s == s
  {
  }

  lemma {:induction false} RouteKeeps(d: Desk, c: BranchCursor, rest: Cursors, cfg: Config)
    requires !d.raised && Holds(d, [c] + rest)
    ensures Holds(Route(d, c, cfg), rest)
  {
    assert d.stranded + ([c] + rest) == [c] + rest && [] + rest == rest;
    if d.expected > 1 && c.node in cfg.joins {
      ArriveKeeps(d.books, d.queue, d.completed, d.waiting, rest, c, d.expected);
      var a := ArriveResult(d.waiting, c, d.expected);
      if a.fired {
        AwaitKeeps(d, c, rest, cfg);
      }
    } else {
      Enqueue(d.books, d.queue, d.completed, d.waiting, rest, c);
    }
  }

  lemma {:induction false} AwaitKeeps(d: Desk, c: BranchCursor, rest: Cursors, cfg: Config)
    requires !d.raised && d.stranded == [] && ArriveResult(d.waiting, c, d.expected).fired
    requires Accounted(Arrived(d.books, d.waiting, c), d.queue, d.completed, AfterArrive(d.waiting, c, d.expected),
                       ArriveResult(d.waiting, c, d.expected).ready + rest)
    ensures Holds(Await(d, c, cfg), rest)
  {
    var ready := ArriveResult(d.waiting, c, d.expected).ready;
    assert [] + rest == rest;
    if Joint(ready, d.collapses, cfg).Some? {
      MergeKeeps(Arrived(d.books, d.waiting, c), d.queue, d.completed, AfterArrive(d.waiting, c, d.expected), rest,
                 ready, Joint(ready, d.collapses, cfg).value);
    }
  }

  lemma {:induction false} RouteEachKeeps(d: Desk, cs: Cursors, cfg: Config)
    requires Holds(d, cs)
    ensures Holds(RouteEach(d, cs, cfg), [])
    decreases |cs|
  {
    if d.raised {
      assert (d.stranded + cs) + [] == d.stranded + cs;
    } else if cs != [] {
      assert cs == [cs[0]] + cs[1..];
      RouteKeeps(d, cs[0], cs[1..], cfg);
      RouteEachKeeps(Route(d, cs[0], cfg), cs[1..], cfg);
    }
  }

  /** Whatever the executor answers, live cursors stay accounted for; only an exception leaves any in hand. */
  lemma {:induction false} AnswerKeeps(d: Desk, c: BranchCursor, reply: Reply, cfg: Config)
    requires !d.raised && Holds(d, [c])
    ensures Holds(Answer(d, c, reply, cfg), [])
  {
    NoRest([c]);
    NoRest([]);
    match reply {
      case Yield(meta) => ParkKeeps(d.books, d.queue, d.completed, d.waiting, [], c, meta);
      case Forked(children) => FanKeeps(d, c, children, cfg);
      case Stepped(next) => AdvanceKeeps(d, c, next, cfg);
      case Aborted =>
    }
  }

  lemma {:induction false} FanKeeps(d: Desk, c: BranchCursor, children: Cursors, cfg: Config)
    requires !d.raised && Holds(d, [c])
    ensures Holds(Fan(d, c, children, cfg), [])
  {
    NoRest([c]);
    NoRest(children);
    CommitKeeps(d.books, d.queue, d.completed, d.waiting, [], Commit([c], children));
    RouteEachKeeps(Forking(d, c, children), children, cfg);
  }

  lemma {:induction false} AdvanceKeeps(d: Desk, c: BranchCursor, next: BranchCursor, cfg: Config)
    requires !d.raised && Holds(d, [c])
    ensures Holds(Advance(d, c, next, cfg), [])
  {
    NoRest([c]);
    NoRest([next]);
    NoRest([]);
    var e := d.(books := Recorded(d.books, Commit([c], [next])));
    CommitKeeps(d.books, d.queue, d.completed, d.waiting, [], Commit([c], [next]));
    if IsTerminated(next) {
      Complete(e.books, e.queue, e.completed, e.waiting, next);
    } else {
      RouteKeeps(e, next, [], cfg);
    }
  }

  /** Taking the head completes a terminated cursor, or costs one tick within the bound. */
  lemma {:induction false} TakenKeeps(d: Desk, maxTicks: int)
    requires Runs(d, maxTicks) && Holds(d, []) && Tallied(d, maxTicks)
    ensures Holds(Taken(d), if IsTerminated(d.queue[0]) then [] else [d.queue[0]]) && Tallied(Taken(d), maxTicks)
  {
    var c := d.queue[0];
    NoRest([c]);
    NoRest([]);
    Dequeue(d.books, d.queue, d.completed, d.waiting);
    if IsTerminated(c) {
      Complete(d.books, d.queue[1..], d.completed, d.waiting, c);
    } else {
      ExecuteKeeps(d.books, d.queue[1..], d.completed, d.waiting, c);
    }
  }

  lemma {:induction false} AnswerFaithful(d: Desk, c: BranchCursor, reply: Reply, cfg: Config)
    requires ParkedFaithfully(d.books, d.parked)
    ensures ParkedFaithfully(Answer(d, c, reply, cfg).books, Answer(d, c, reply, cfg).parked)
  {
    if reply.Yield? {
      ParkFaithful(d.books, d.parked, c, reply.meta);
    } else {
      AnswerTicks(d, c, reply, cfg);
      FaithfulSame(d.books, Answer(d, c, reply, cfg).books, d.parked);
    }
  }

  lemma {:induction false} FaithfulSame(a: Books, b: Books, parked: map<string, BranchCursor>)
    requires a.parkedFrom == b.parkedFrom && a.parkedAs == b.parkedAs && ParkedFaithfully(a, parked)
    ensures ParkedFaithfully(b, parked)
  {
  }

  ghost predicate Steady(d: Desk, maxTicks: int) {
    Holds(d, []) && Tallied(d, maxTicks) && ParkedFaithfully(d.books, d.parked)
  }

  lemma {:induction false} TurnSteady(d: Desk, replies: Executor, cfg: Config, maxTicks: int)
    requires Runs(d, maxTicks) && Steady(d, maxTicks)
    ensures Steady(Turn(d, replies, cfg), maxTicks)
  {
    TakenKeeps(d, maxTicks);
    if !IsTerminated(d.queue[0]) { AnswerSteady(d, replies(d.ticks + 1, d.queue[0]), cfg, maxTicks); }
  }

  lemma {:induction false} AnswerSteady(d: Desk, reply: Reply, cfg: Config, maxTicks: int)
    requires Runs(d, maxTicks) && Steady(d, maxTicks) && !IsTerminated(d.queue[0])
    ensures Steady(Answer(Taken(d), d.queue[0], reply, cfg), maxTicks)
  {
    var c, e := d.queue[0], Taken(d);
    TakenKeeps(d, maxTicks);
    AnswerKeeps(e, c, reply, cfg);
    AnswerFaithful(e, c, reply, cfg);
    AnswerTicks(e, c, reply, cfg);
  }

  /**
   * For every graph (cyclic or not), every executor, every fork pattern and every failing merge:
   * at most `maxTicks` executions happen and the loop ends with an empty queue, no tick left or an
   * exception. No transition has spent a cursor that was not live, every live cursor is accounted
   * for, and parking has spent nothing.
   */
  lemma {:induction false} DriveAccounts(d: Desk, replies: Executor, cfg: Config, maxTicks: int)
    requires Steady(d, maxTicks)
    ensures Steady(Drive(d, replies, cfg, maxTicks), maxTicks) && !Runs(Drive(d, replies, cfg, maxTicks), maxTicks)
    ensures Drive(d, replies, cfg, maxTicks).books.initial == d.books.initial
    decreases if maxTicks > d.ticks then maxTicks - d.ticks else 0, |d.queue|
  {
    if Runs(d, maxTicks) {
      TurnTicks(d, replies, cfg);
      TurnSteady(d, replies, cfg, maxTicks);
      DriveAccounts(Turn(d, replies, cfg), replies, cfg, maxTicks);
    }
  }

  /** A traversal of given cursors, from the empty desk. */
  function Opened(cursors: Cursors, waiting: Buckets): Desk {
    Desk([], waiting, [], map[], |cursors|, 0, 0, false, [], Books(cursors, [], [], [], [], []))
  }

  /** The whole run: the initial cursors are routed, then the queue is driven. */
  function Traversal(cursors: Cursors, waiting: Buckets, replies: Executor, cfg: Config, maxTicks: int): Desk {
    Drive(RouteEach(Opened(cursors, waiting), cursors, cfg), replies, cfg, maxTicks)
  }

  lemma {:induction false} OpenedHolds(cursors: Cursors, waiting: Buckets, maxTicks: int)
    requires Orderly(waiting) && AllEmpty(waiting)
    ensures var d := Opened(cursors, waiting);
            Holds(d, cursors) && Tallied(d, maxTicks) && ParkedFaithfully(d.books, d.parked)
  {
    var b := Opened(cursors, waiting).books;
    assert [] + cursors == cursors;
    forall c ensures Balanced(b, [], [], waiting, cursors, c) {
      assert Bucket(waiting, c.node) == [];
    }
  }

  /** `DriveAccounts` for a whole traversal, from its initial cursors. */
  lemma {:induction false} TraversalAccounts(cursors: Cursors, waiting: Buckets, replies: Executor, cfg: Config,
                                             maxTicks: int)
    requires Orderly(waiting) && AllEmpty(waiting)
    ensures var r := Traversal(cursors, waiting, replies, cfg, maxTicks);
            Steady(r, maxTicks) && !Runs(r, maxTicks) && r.books.initial == cursors
  {
    var d := Opened(cursors, waiting);
    OpenedHolds(cursors, waiting, maxTicks);
    RouteEachKeeps(d, cursors, cfg);
    RouteEachTicks(d, cursors, cfg);
    FaithfulSame(d.books, RouteEach(d, cursors, cfg).books, d.parked);
    DriveAccounts(RouteEach(d, cursors, cfg), replies, cfg, maxTicks);
  }

  // --- Parking the siblings ------------------------------------------------------------------------------

  predicate Keeps(before: map<string, BranchCursor>, after: map<string, BranchCursor>) {
    forall s :: s in before ==> s in after && after[s] == before[s]
  }

  ghost predicate AllEmpty(w: Buckets) {
    forall n :: Bucket(w, n) == []
  }

  /** `setdefault` for one sibling: a stream parked earlier keeps its entry. */
  function ParkSibling(d: Desk, x: BranchCursor): Desk {
    d.(parked := if x.streamId in d.parked then d.parked else d.parked[x.streamId := x],
       books := Parked(d.books, x, x.meta))
  }

  function ParkEach(d: Desk, xs: Cursors): Desk
    decreases |xs|
  {
    if xs == [] then d else ParkEach(ParkSibling(d, xs[0]), xs[1..])
  }

  /** Parking the siblings that waited commits nothing; every one of their streams is then in the table. */
  lemma {:induction false} ParkEachKeeps(d: Desk, xs: Cursors)
    requires !d.raised && Holds(d, xs) && ParkedFaithfully(d.books, d.parked)
    ensures var e := ParkEach(d, xs);
            && Holds(e, []) && ParkedFaithfully(e.books, e.parked) && Keeps(d.parked, e.parked)
            && (forall x :: x in xs ==> x.streamId in e.parked)
            && e == d.(parked := e.parked, books := e.books) && e.books.commits == d.books.commits
    decreases |xs|
  {
    NoRest(xs);
    if xs != [] {
      var x, rest := xs[0], xs[1..];
      NoRest(rest);
      assert xs == [x] + rest;
      ParkKeeps(d.books, d.queue, d.completed, d.waiting, rest, x, x.meta);
      ParkFaithful(d.books, d.parked, x, x.meta);
      ParkEachKeeps(ParkSibling(d, x), rest);
    }
  }

  /** What parking the siblings makes of a desk. */
  ghost predicate Handed(d: Desk, e: Desk) {
    && Holds(e, []) && ParkedFaithfully(e.books, e.parked)
    && Keeps(d.parked, e.parked) && AllEmpty(e.waiting)
    && (forall c :: Waiting(d.waiting, c) > 0 ==> c.streamId in e.parked)
    && e == d.(waiting := e.waiting, parked := e.parked, books := e.books) && e.books.commits == d.books.commits
  }

  /** Draining the barrier into the table: nobody waits any more and nobody is lost. */
  lemma {:induction false} DrainParks(d: Desk, siblings: Cursors)
    requires !d.raised && Holds(d, []) && ParkedFaithfully(d.books, d.parked)
    requires forall c :: multiset(siblings)[c] == Waiting(d.waiting, c)
    ensures Handed(d, ParkEach(d.(waiting := AfterDrainAll(d.waiting)), siblings))
  {
    NoRest(siblings);
    NoRest([]);
    StrandedAll(siblings, d.waiting);
    DrainKeeps(d.books, d.queue, d.completed, d.waiting, siblings);
    ParkEachKeeps(d.(waiting := AfterDrainAll(d.waiting)), siblings);
  }

  // --- The class --------------------------------------------------------------------------------------------

  class Traverser {
    const barrier: Barrier
    const maxTicks: int
    const arbiter: Cursors -> int
    const baseStream: string
    const anchors: nat -> Option<Pointer>
    var queue: Cursors
    var parked: map<string, BranchCursor>
    var completed: Cursors
    var expectedParallel: int
    var totalTicks: nat
    var joinCollapses: nat
    var raised: bool                  // an exception is on its way out
    ghost var stranded: Cursors
    ghost var books: Books

    function Cfg(): Config {
      Config(barrier.joinNodes, arbiter, baseStream, anchors)
    }

    ghost predicate Valid()
      reads this, barrier
    {
      barrier.Valid()
    }

    ghost function State(): Desk
      reads this, barrier
    {
      Desk(queue, barrier.waiting, completed, parked, expectedParallel, totalTicks, joinCollapses, raised, stranded,
           books)
    }

    constructor (barrier: Barrier, maxTicks: int, arbiter: Cursors -> int, baseStream: string,
                 anchors: nat -> Option<Pointer>)
      requires barrier.Valid()
      ensures Valid() && this.barrier == barrier && this.maxTicks == maxTicks
      ensures Cfg() == Config(barrier.joinNodes, arbiter, baseStream, anchors)
    {
      this.barrier, this.maxTicks := barrier, maxTicks;
      this.arbiter, this.baseStream, this.anchors := arbiter, baseStream, anchors;
      queue, parked, completed, expectedParallel, totalTicks, joinCollapses := [], map[], [], 0, 0, 0;
      raised, stranded, books := false, [], Books([], [], [], [], [], []);
    }

    /** `collapse_and_merge` of the cursors the barrier released. */
    method MergeReady(ready: Cursors)
      requires Valid()
      modifies this
      ensures Valid() && State() == Collapse(old(State()), ready, Cfg())
    {
      var merged := BranchRuntime.Merged(ready, arbiter(ready), baseStream);
      var anchor := anchors(joinCollapses);
      if merged.None? || anchor.None? {
        raised, stranded := true, ready;
        return;
      }
      var cursor := merged.value.(pointer := anchor.value);
      books := Recorded(books, Commit(ready, [cursor]));
      queue := queue + [cursor];
      joinCollapses := joinCollapses + 1;
      expectedParallel := 1;
    }

    method RouteOne(cursor: BranchCursor)
      requires Valid()
      modifies this, barrier
      ensures Valid() && State() == Route(old(State()), cursor, Cfg())
    {
      if expectedParallel > 1 && barrier.IsJoinPoint(cursor.node) {
        books := Arrived(books, barrier.waiting, cursor);
        var allArrived, ready := barrier.ArriveAt(cursor, expectedParallel);
        if allArrived { MergeReady(ready); }
      } else {
        queue := queue + [cursor];
      }
    }

    method RouteAll(cursors: Cursors)
      requires Valid()
      modifies this, barrier
      ensures Valid() && State() == RouteEach(old(State()), cursors, Cfg())
    {
      assert cursors[0..] == cursors;
      for i := 0 to |cursors|
        invariant Valid() && RouteEach(State(), cursors[i..], Cfg()) == RouteEach(old(State()), cursors, Cfg())
      {
        if raised {
          stranded := stranded + cursors[i..];
          return;
        }
        assert cursors[i..][0] == cursors[i] && cursors[i..][1..] == cursors[i + 1..];
        RouteOne(cursors[i]);
      }
      assert cursors[|cursors|..] == [] && stranded + [] == stranded;
    }

    method Perform(cursor: BranchCursor, reply: Reply)
      requires Valid()
      modifies this, barrier
      ensures Valid() && State() == Answer(old(State()), cursor, reply, Cfg())
    {
      match reply {
        case Yield(meta) =>
          parked := parked[cursor.streamId := cursor.(meta := meta)];
          books := Parked(books, cursor, meta);
        case Forked(children) =>
          books := Recorded(books, Commit([cursor], children));
          expectedParallel := |children|;
          RouteAll(children);
        case Stepped(next) =>
          books := Recorded(books, Commit([cursor], [next]));
          if IsTerminated(next) {
            completed := completed + [next];
          } else {
            RouteOne(next);
          }
        case Aborted =>
          raised, stranded := true, [cursor];
      }
    }

    method Pop() returns (cursor: BranchCursor)
      requires Valid() && queue != []
      modifies this
      ensures Valid() && cursor == old(queue)[0] && State() == Taken(old(State()))
    {
      cursor := queue[0];
      queue := queue[1..];
      if IsTerminated(cursor) {
        completed := completed + [cursor];
      } else {
        totalTicks := totalTicks + 1;
        books := Executed(books, cursor);
      }
    }

    /** The `while` loop. */
    method Loop(replies: Executor)
      requires Valid()
      modifies this, barrier
      ensures Valid() && State() == Drive(old(State()), replies, Cfg(), maxTicks)
    {
      while !raised && queue != [] && totalTicks < maxTicks
        invariant Valid() && Drive(State(), replies, Cfg(), maxTicks) == Drive(old(State()), replies, Cfg(), maxTicks)
        decreases maxTicks - totalTicks, |queue|
      {
        TurnTicks(State(), replies, Cfg());
        TurnOnce(replies);
      }
    }

    method TurnOnce(replies: Executor)
      requires Valid() && queue != []
      modifies this, barrier
      ensures Valid() && State() == Turn(old(State()), replies, Cfg())
    {
      var cursor := Pop();
      if !IsTerminated(cursor) { Perform(cursor, replies(totalTicks, cursor)); }
    }

    method ParkStranded() returns (siblings: Cursors)
      requires Valid()
      modifies this, barrier
      ensures Valid() && forall c :: multiset(siblings)[c] == Waiting(old(barrier.waiting), c)
      ensures State() == ParkEach(old(State()).(waiting := AfterDrainAll(old(barrier.waiting))), siblings)
    {
      siblings := barrier.DrainEverything();
      ghost var start := State();
      assert siblings[0..] == siblings;
      for i := 0 to |siblings|
        invariant Valid() && ParkEach(State(), siblings[i..]) == ParkEach(start, siblings)
      {
        assert siblings[i..][0] == siblings[i] && siblings[i..][1..] == siblings[i + 1..];
        var x := siblings[i];
        books := Parked(books, x, x.meta);
        if x.streamId !in parked { parked := parked[x.streamId := x]; }
      }
      assert siblings[|siblings|..] == [];
    }

    /** Once something is parked, the siblings that wait at a join are parked too. */
    method ParkWaiting()
      requires Valid() && !raised && Holds(State(), []) && ParkedFaithfully(books, parked)
      modifies this, barrier
      ensures Valid() && Handed(old(State()), State())
    {
      ghost var d := State();
      var siblings := ParkStranded();
      DrainParks(d, siblings);
    }

    method Open(cursors: Cursors)
      requires Valid()
      modifies this
      ensures Valid() && State() == Opened(cursors, barrier.waiting)
    {
      queue, parked, completed, expectedParallel, totalTicks, joinCollapses := [], map[], [], |cursors|, 0, 0;
      raised, stranded, books := false, [], Books(cursors, [], [], [], [], []);
    }

    /** `_drive_queue` up to the final sweep; when it raises, the exception leaves it. */
    method DriveQueue(cursors: Cursors, replies: Executor)
      requires Valid() && AllEmpty(barrier.waiting)
      modifies this, barrier
      ensures Valid()
      ensures var r := Traversal(cursors, old(barrier.waiting), replies, Cfg(), maxTicks);
              && Steady(r, maxTicks) && !Runs(r, maxTicks)
              && if r.raised || r.parked == map[] then State() == r else Handed(r, State())
    {
      TraversalAccounts(cursors, barrier.waiting, replies, Cfg(), maxTicks);
      Open(cursors);
      RouteAll(cursors);
      Loop(replies);
      if !raised && parked != map[] { ParkWaiting(); }
    }
  }
}
