/**
 * When the join barrier turns a cursor away (node/runtime/phase.py:98-106) in the course of a
 * traversal: only if its stream id already waits there. Forks name children below their parent, so
 * live ids stay prefix-free and nobody is turned away, until a merge goes back to a stream that
 * somebody else is still below.
 */
module QueueStreams {
  import opened Wrappers
  import PtaLedger
  import opened BranchCursors
  import opened JoinBarrier
  import opened QueueBooks
  import opened QueueDriver
  import opened BranchRuntime
  import opened Sequences
  import opened StreamIds
  import opened TraversalLedger

  /** The cursor reaches a join node at which its stream already waits. */
  predicate Meets(d: Desk, c: BranchCursor, cfg: Config) {
    d.expected > 1 && c.node in cfg.joins && Present(Bucket(d.waiting, c.node), c.streamId)
  }

  /** Routing turns away exactly the cursors that meet their own stream. */
  lemma {:induction false} TurnedAwayIff(d: Desk, c: BranchCursor, cfg: Config)
    ensures Route(d, c, cfg).books.repeated
         == if Meets(d, c, cfg) then d.books.repeated + [c] else d.books.repeated
  {
  }

  // --- The exact condition ---------------------------------------------------------------------------

  predicate NoneMeets(d: Desk, cs: Cursors, cfg: Config)
    decreases |cs|
  {
    d.raised || cs == [] || (!Meets(d, cs[0], cfg) && NoneMeets(Route(d, cs[0], cfg), cs[1..], cfg))
  }

  lemma {:induction false} RouteEachIff(d: Desk, cs: Cursors, cfg: Config)
    ensures NoneMeets(d, cs, cfg) ==> RouteEach(d, cs, cfg).books.repeated == d.books.repeated
    ensures !NoneMeets(d, cs, cfg) ==> |RouteEach(d, cs, cfg).books.repeated| > |d.books.repeated|
    decreases |cs|
  {
    if !d.raised && cs != [] {
      TurnedAwayIff(d, cs[0], cfg);
      RouteEachIff(Route(d, cs[0], cfg), cs[1..], cfg);
    }
  }

  /** No cursor that the turn of the loop brings to the barrier meets its own stream. */
  predicate TurnApart(d: Desk, replies: Executor, cfg: Config)
    requires d.queue != []
  {
    var c, e := d.queue[0], Taken(d);
    IsTerminated(c) ||
    match replies(e.ticks, c)
    case Forked(children) => NoneMeets(Forking(e, c, children), children, cfg)
    case Stepped(next) => IsTerminated(next) || !Meets(e, next, cfg)
    case _ => true
  }

  lemma {:induction false} TurnIff(d: Desk, replies: Executor, cfg: Config)
    requires d.queue != []
    ensures TurnApart(d, replies, cfg) ==> Turn(d, replies, cfg).books.repeated == d.books.repeated
    ensures !TurnApart(d, replies, cfg) ==> |Turn(d, replies, cfg).books.repeated| > |d.books.repeated|
  {
    var c, e := d.queue[0], Taken(d);
    if !IsTerminated(c) {
      match replies(e.ticks, c) {
        case Forked(children) => RouteEachIff(Forking(e, c, children), children, cfg);
        case Stepped(next) => TurnedAwayIff(e.(books := Recorded(e.books, Commit([c], [next]))), next, cfg);
        case _ =>
      }
    }
  }

  predicate NeverMeets(d: Desk, replies: Executor, cfg: Config, maxTicks: int)
    decreases if maxTicks > d.ticks then maxTicks - d.ticks else 0, |d.queue|
  {
    Runs(d, maxTicks) ==>
      && TurnApart(d, replies, cfg)
      && (TurnTicks(d, replies, cfg); NeverMeets(Turn(d, replies, cfg), replies, cfg, maxTicks))
  }

  /** Over every run: nobody is turned away if and only if no cursor reaches a join at which its stream waits. */
  lemma {:induction false} NobodyTurnedAwayIff(d: Desk, replies: Executor, cfg: Config, maxTicks: int)
    ensures NeverMeets(d, replies, cfg, maxTicks) ||
            |Drive(d, replies, cfg, maxTicks).books.repeated| > |d.books.repeated|
    ensures Drive(d, replies, cfg, maxTicks).books.repeated == d.books.repeated
       <==> NeverMeets(d, replies, cfg, maxTicks)
    decreases if maxTicks > d.ticks then maxTicks - d.ticks else 0, |d.queue|
  {
    if Runs(d, maxTicks) {
      TurnTicks(d, replies, cfg);
      TurnIff(d, replies, cfg);
      NobodyTurnedAwayIff(Turn(d, replies, cfg), replies, cfg, maxTicks);
    }
  }

  // --- The ids of the live cursors ---------------------------------------------------------------------

  /** No cursor is live twice, and no live stream is the same as, or named below, another. */
  ghost predicate PrefixFree(initial: Cursors, commits: seq<Commit>) {
    && (forall c :: LiveCount(initial, commits, c) <= 1)
    && (forall c, d :: LiveCount(initial, commits, c) > 0 && LiveCount(initial, commits, d) > 0 && c != d ==>
          Apart(c.streamId, d.streamId))
  }

  /** What a transition makes was not live before, and is made once. */
  ghost predicate MakesNew(initial: Cursors, commits: seq<Commit>, t: Commit) {
    forall c :: c in t.made ==> LiveCount(initial, commits, c) == 0 && Count(t.made, c) == 1
  }

  ghost predicate SpendsLiveOnly(initial: Cursors, commits: seq<Commit>, t: Commit) {
    forall c :: Count(t.spent, c) <= LiveCount(initial, commits, c)
  }

  /** Live before the transition and not spent by it. */
  ghost predicate Stays(initial: Cursors, commits: seq<Commit>, t: Commit, c: BranchCursor) {
    LiveCount(initial, commits, c) > 0 && c !in t.spent
  }

  lemma {:induction false} LiveNow(initial: Cursors, commits: seq<Commit>, t: Commit, c: BranchCursor)
    requires PrefixFree(initial, commits) && MakesNew(initial, commits, t) && SpendsLiveOnly(initial, commits, t)
    ensures LiveCount(initial, commits + [t], c) <= 1
    ensures LiveCount(initial, commits + [t], c) > 0 <==> c in t.made || Stays(initial, commits, t, c)
  {
    LiveSnoc(initial, commits, t, c);
    CountMember(t.made, c);
    CountMember(t.spent, c);
    assert LiveCount(initial, commits, c) <= 1 && Count(t.spent, c) <= LiveCount(initial, commits, c);
  }

  /**
   * The exact condition for any transition: the live streams stay prefix-free if and only if those
   * it makes are apart from one another and from everyone who stays.
   */
  lemma {:induction false} TransitionFreeIff(initial: Cursors, commits: seq<Commit>, t: Commit)
    requires PrefixFree(initial, commits) && MakesNew(initial, commits, t) && SpendsLiveOnly(initial, commits, t)
    ensures PrefixFree(initial, commits + [t]) <==>
              && (forall c, d :: c in t.made && d in t.made && c != d ==> Apart(c.streamId, d.streamId))
              && (forall c, d :: c in t.made && Stays(initial, commits, t, d) ==> Apart(c.streamId, d.streamId))
  {
    forall c ensures LiveCount(initial, commits + [t], c) <= 1
                     && (LiveCount(initial, commits + [t], c) > 0 <==> c in t.made || Stays(initial, commits, t, c))
    {
      LiveNow(initial, commits, t, c);
    }
    forall c, d | c in t.made && Stays(initial, commits, t, d) ensures c != d {
      assert LiveCount(initial, commits, c) == 0;
    }
  }

  /** A fork keeps the live streams prefix-free. */
  lemma {:induction false} ForkKeepsFree(initial: Cursors, commits: seq<Commit>, t: Commit)
    requires PrefixFree(initial, commits) && MakesNew(initial, commits, t) && SpendsLiveOnly(initial, commits, t)
    requires |t.spent| == 1
    requires forall i :: 0 <= i < |t.made| ==> t.made[i].streamId == ChildId(t.spent[0].streamId, i)
    ensures PrefixFree(initial, commits + [t])
  {
    SpentLive(initial, commits, t);
    forall c, d | c in t.made && d in t.made && c != d ensures Apart(c.streamId, d.streamId) {
      var i :| 0 <= i < |t.made| && t.made[i] == c;
      var j :| 0 <= j < |t.made| && t.made[j] == d;
      ChildrenApart(t.spent[0].streamId, i, j);
    }
    forall c, d | c in t.made && Stays(initial, commits, t, d) ensures Apart(c.streamId, d.streamId) {
      var i :| 0 <= i < |t.made| && t.made[i] == c;
      ApartFromChild(d.streamId, t.spent[0].streamId, i);
    }
    TransitionFreeIff(initial, commits, t);
  }

  lemma {:induction false} SpentLive(initial: Cursors, commits: seq<Commit>, t: Commit)
    requires PrefixFree(initial, commits) && SpendsLiveOnly(initial, commits, t)
    ensures forall c :: c in t.spent ==> LiveCount(initial, commits, c) > 0
    ensures forall c, d :: c in t.spent && Stays(initial, commits, t, d) ==> Apart(d.streamId, c.streamId)
  {
    forall c | c in t.spent ensures LiveCount(initial, commits, c) > 0 { CountMember(t.spent, c); }
  }

  /** A step or fallback stays on its stream and keeps the live streams prefix-free. */
  lemma {:induction false} StepKeepsFree(initial: Cursors, commits: seq<Commit>, t: Commit)
    requires PrefixFree(initial, commits) && MakesNew(initial, commits, t) && SpendsLiveOnly(initial, commits, t)
    requires |t.spent| == 1 && |t.made| == 1 && t.made[0].streamId == t.spent[0].streamId
    ensures PrefixFree(initial, commits + [t])
  {
    SpentLive(initial, commits, t);
    forall c, d | c in t.made && Stays(initial, commits, t, d) ensures Apart(c.streamId, d.streamId) {
      assert t.spent[0] in t.spent;
    }
    TransitionFreeIff(initial, commits, t);
  }

  /** Everyone who stays has a stream apart from `base`. */
  ghost predicate Alone(initial: Cursors, commits: seq<Commit>, t: Commit, base: string) {
    forall c :: Stays(initial, commits, t, c) ==> Apart(base, c.streamId)
  }

  /** A merge onto `base` keeps the live streams prefix-free exactly when nobody who stays is below or above it. */
  lemma {:induction false} MergeKeepsFreeIff(initial: Cursors, commits: seq<Commit>, t: Commit, base: string)
    requires PrefixFree(initial, commits) && MakesNew(initial, commits, t) && SpendsLiveOnly(initial, commits, t)
    requires |t.made| == 1 && t.made[0].streamId == base
    ensures PrefixFree(initial, commits + [t]) <==> Alone(initial, commits, t, base)
  {
    TransitionFreeIff(initial, commits, t);
    assert t.made == [t.made[0]];
  }

  // --- Along a run -------------------------------------------------------------------------------------

  /** Every merge of the log merges onto a stream that nobody who stays is below or above. */
  ghost predicate MergesAlone(initial: Cursors, commits: seq<Commit>, log: Log)
    requires |log| == |commits|
    decreases |commits|
  {
    commits != [] ==>
      var n := |commits| - 1;
      && MergesAlone(initial, commits[..n], log[..n])
      && (log[n].0.Merge? ==> Alone(initial, commits[..n], commits[n], log[n].0.stream))
  }

  ghost predicate FreeAlong(initial: Cursors, commits: seq<Commit>)
    decreases |commits|
  {
    PrefixFree(initial, commits) && (commits != [] ==> FreeAlong(initial, commits[..|commits| - 1]))
  }

  lemma {:induction false} LoggedStepFreeIff(initial: Cursors, commits: seq<Commit>, t: Commit, m: Move, e: Env)
    requires PrefixFree(initial, commits) && MakesNew(initial, commits, t) && SpendsLiveOnly(initial, commits, t)
    requires Carries(t, m, e)
    ensures PrefixFree(initial, commits + [t]) <==> (m.Merge? ==> Alone(initial, commits, t, m.stream))
  {
    match m {
      case Fork(_, _, _, _) => ForkKeepsFree(initial, commits, t);
      case Merge(_, _, stream) => MergeKeepsFreeIff(initial, commits, t, stream);
      case StepMove(_, _, _) => StepKeepsFree(initial, commits, t);
      case Fallback(_, _, _) => StepKeepsFree(initial, commits, t);
    }
  }

  /** Over every run of logged operations: live streams are prefix-free throughout exactly when every merge is alone. */
  lemma {:induction false} FreeAlongIff(r: Runtime, initial: Cursors, commits: seq<Commit>, log: Log)
    requires StartsOn(r, initial) && SpendsOnlyLive(initial, commits) && Logged(r.commits, commits, log)
    requires PrefixFree(initial, [])
    ensures FreeAlong(initial, commits) <==> MergesAlone(initial, commits, log)
    decreases |commits|
  {
    if commits != [] {
      var n := |commits| - 1;
      Unsnoc(commits);
      FreeAlongIff(r, initial, commits[..n], log[..n]);
      if FreeAlong(initial, commits[..n]) {
        LoggedMakesNew(r, initial, commits, log);
        LoggedStepFreeIff(initial, commits[..n], commits[n], log[n].0, log[n].1);
      }
    }
  }

  lemma {:induction false} LoggedMakesNew(r: Runtime, initial: Cursors, commits: seq<Commit>, log: Log)
    requires StartsOn(r, initial) && SpendsOnlyLive(initial, commits) && Logged(r.commits, commits, log)
    requires commits != []
    ensures MakesNew(initial, commits[..|commits| - 1], commits[|commits| - 1])
  {
    var n := |commits| - 1;
    RecordedIsSealable(r, initial, commits[..n], log[..n]);
    var s := Play(r, log[..n]);
    NewHashHere(r.commits, log[..n], s.commits, log[n].1.hash);
    forall c ensures LiveCount(initial, commits[..n], c) >= 0 { LiveNonNegative(initial, commits[..n], c); }
    forall c | c in commits[n].made
      ensures LiveCount(initial, commits[..n], c) == 0 && Count(commits[n].made, c) == 1
    {
      MadeNew(initial, commits[..n], s.commits, Creates(log[n].0).value, log[n].1.hash, c);
    }
  }

  /** Every stream that is ever live is the base stream or named below it. */
  lemma {:induction false} LiveBelowBase(prior: seq<PtaLedger.Tx>, initial: Cursors, commits: seq<Commit>, log: Log,
                                         base: string, c: BranchCursor)
    requires SpendsOnlyLive(initial, commits) && Logged(prior, commits, log)
    requires forall x :: x in initial ==> Under(x.streamId, base)
    requires forall i :: 0 <= i < |log| && log[i].0.Merge? ==> log[i].0.stream == base
    requires LiveCount(initial, commits, c) > 0
    ensures Under(c.streamId, base)
    decreases |commits|
  {
    if commits == [] {
      CountMember(initial, c);
    } else {
      var n := |commits| - 1;
      var t, m := commits[n], log[n].0;
      CountMember(t.made, c);
      if c !in t.made {
        LiveBelowBase(prior, initial, commits[..n], log[..n], base, c);
      } else {
        forall x | x in t.spent ensures Under(x.streamId, base) {
          CountMember(t.spent, x);
          LiveBelowBase(prior, initial, commits[..n], log[..n], base, x);
        }
        MadeBelowBase(t, m, log[n].1, base, c);
      }
    }
  }

  lemma {:induction false} MadeBelowBase(t: Commit, m: Move, e: Env, base: string, c: BranchCursor)
    requires Carries(t, m, e) && c in t.made && (m.Merge? ==> m.stream == base)
    requires forall x :: x in t.spent ==> Under(x.streamId, base)
    ensures Under(c.streamId, base)
  {
    if !m.Merge? {
      assert t.spent[0] in t.spent;
      if m.Fork? {
        var i :| 0 <= i < |t.made| && t.made[i] == c;
        ChildUnder(m.parent.streamId, i);
        UnderTransitive(c.streamId, m.parent.streamId, base);
      }
    }
  }

  /** When all streams are below the base stream, a merge onto it is alone exactly when it leaves nobody. */
  lemma {:induction false} AloneIffLast(initial: Cursors, commits: seq<Commit>, t: Commit, base: string)
    requires forall c :: LiveCount(initial, commits, c) > 0 ==> Under(c.streamId, base)
    ensures Alone(initial, commits, t, base) <==> forall c :: !Stays(initial, commits, t, c)
  {
  }

  lemma {:induction false} FreeAtPrefix(initial: Cursors, all: seq<Commit>, commits: seq<Commit>)
    requires FreeAlong(initial, all) && commits <= all
    ensures PrefixFree(initial, commits)
    decreases |all|
  {
    if |commits| < |all| { FreeAtPrefix(initial, all[..|all| - 1], commits); } else { assert commits == all; }
  }

  // --- Nobody is turned away ---------------------------------------------------------------------------

  /** While the live streams are prefix-free, a cursor in hand meets nobody on its own stream. */
  lemma {:induction false} FreeMeetsNobody(d: Desk, c: BranchCursor, rest: Cursors, cfg: Config)
    requires !d.raised && Holds(d, [c] + rest) && PrefixFree(d.books.initial, d.books.commits)
    ensures !Meets(d, c, cfg)
  {
    var bucket, hand := Bucket(d.waiting, c.node), [c] + rest;
    assert d.stranded + hand == hand && c in hand;
    assert QueueBooks.Balanced(d.books, d.queue, d.completed, d.waiting, hand, c);
    CountMember(hand, c);
    forall i | 0 <= i < |bucket| ensures bucket[i].streamId != c.streamId {
      assert QueueBooks.Balanced(d.books, d.queue, d.completed, d.waiting, hand, bucket[i]);
      assert Waiting(d.waiting, bucket[i]) > 0;
    }
  }

  lemma {:induction false} RouteGrows(d: Desk, c: BranchCursor, cfg: Config)
    ensures d.books.commits <= Route(d, c, cfg).books.commits
  {
  }

  lemma {:induction false} RouteEachGrows(d: Desk, cs: Cursors, cfg: Config)
    ensures d.books.commits <= RouteEach(d, cs, cfg).books.commits
    decreases |cs|
  {
    if !d.raised && cs != [] {
      RouteGrows(d, cs[0], cfg);
      RouteEachGrows(Route(d, cs[0], cfg), cs[1..], cfg);
    }
  }

  lemma {:induction false} TurnGrows(d: Desk, replies: Executor, cfg: Config)
    requires d.queue != []
    ensures d.books.commits <= Turn(d, replies, cfg).books.commits
  {
    var c, e := d.queue[0], Taken(d);
    if !IsTerminated(c) {
      match replies(e.ticks, c) {
        case Forked(children) => RouteEachGrows(Forking(e, c, children), children, cfg);
        case Stepped(next) => RouteGrows(e.(books := Recorded(e.books, Commit([c], [next]))), next, cfg);
        case _ =>
      }
    }
  }

  lemma {:induction false} DriveGrows(d: Desk, replies: Executor, cfg: Config, maxTicks: int)
    ensures d.books.commits <= Drive(d, replies, cfg, maxTicks).books.commits
    decreases if maxTicks > d.ticks then maxTicks - d.ticks else 0, |d.queue|
  {
    if Runs(d, maxTicks) {
      TurnTicks(d, replies, cfg);
      TurnGrows(d, replies, cfg);
      DriveGrows(Turn(d, replies, cfg), replies, cfg, maxTicks);
    }
  }

  lemma {:induction false} RouteEachApart(d: Desk, cs: Cursors, cfg: Config, all: seq<Commit>)
    requires Holds(d, cs) && FreeAlong(d.books.initial, all) && RouteEach(d, cs, cfg).books.commits <= all
    ensures NoneMeets(d, cs, cfg)
    decreases |cs|
  {
    if !d.raised && cs != [] {
      assert cs == [cs[0]] + cs[1..];
      RouteEachGrows(d, cs, cfg);
      FreeAtPrefix(d.books.initial, all, d.books.commits);
      FreeMeetsNobody(d, cs[0], cs[1..], cfg);
      RouteKeeps(d, cs[0], cs[1..], cfg);
      RouteTicks(d, cs[0], cfg);
      RouteEachApart(Route(d, cs[0], cfg), cs[1..], cfg, all);
    }
  }

  lemma {:induction false} TurnIsApart(d: Desk, replies: Executor, cfg: Config, maxTicks: int, all: seq<Commit>)
    requires Runs(d, maxTicks) && Steady(d, maxTicks) && FreeAlong(d.books.initial, all)
    requires Turn(d, replies, cfg).books.commits <= all
    ensures TurnApart(d, replies, cfg)
  {
    var c, e := d.queue[0], Taken(d);
    TakenKeeps(d, maxTicks);
    if !IsTerminated(c) {
      NoRest([c]);
      match replies(e.ticks, c) {
        case Forked(children) => ForkApart(e, c, children, cfg, all);
        case Stepped(next) => if !IsTerminated(next) { AdvanceApart(e, c, next, cfg, all); }
        case _ =>
      }
    }
  }

  lemma {:induction false} ForkApart(d: Desk, c: BranchCursor, children: Cursors, cfg: Config, all: seq<Commit>)
    requires !d.raised && Holds(d, [c]) && FreeAlong(d.books.initial, all)
    requires Fan(d, c, children, cfg).books.commits <= all
    ensures NoneMeets(Forking(d, c, children), children, cfg)
  {
    NoRest([c]);
    NoRest(children);
    CommitKeeps(d.books, d.queue, d.completed, d.waiting, [], Commit([c], children));
    RouteEachApart(Forking(d, c, children), children, cfg, all);
  }

  lemma {:induction false} AdvanceApart(d: Desk, c: BranchCursor, next: BranchCursor, cfg: Config, all: seq<Commit>)
    requires !d.raised && Holds(d, [c]) && FreeAlong(d.books.initial, all) && !IsTerminated(next)
    requires Advance(d, c, next, cfg).books.commits <= all
    ensures !Meets(d, next, cfg)
  {
    var e := d.(books := Recorded(d.books, Commit([c], [next])));
    NoRest([c]);
    NoRest([next]);
    NoRest([]);
    CommitKeeps(d.books, d.queue, d.completed, d.waiting, [], Commit([c], [next]));
    RouteGrows(e, next, cfg);
    FreeAtPrefix(d.books.initial, all, e.books.commits);
    FreeMeetsNobody(e, next, [], cfg);
  }

  /** As long as the live streams are prefix-free, the driver turns nobody away. */
  lemma {:induction false} NobodyTurnedAway(d: Desk, replies: Executor, cfg: Config, maxTicks: int)
    requires Steady(d, maxTicks) && FreeAlong(d.books.initial, Drive(d, replies, cfg, maxTicks).books.commits)
    ensures NeverMeets(d, replies, cfg, maxTicks)
    ensures Drive(d, replies, cfg, maxTicks).books.repeated == d.books.repeated
    decreases if maxTicks > d.ticks then maxTicks - d.ticks else 0, |d.queue|
  {
    if Runs(d, maxTicks) {
      var e := Turn(d, replies, cfg);
      TurnTicks(d, replies, cfg);
      TurnSteady(d, replies, cfg, maxTicks);
      DriveGrows(e, replies, cfg, maxTicks);
      TurnIsApart(d, replies, cfg, maxTicks, Drive(d, replies, cfg, maxTicks).books.commits);
      NobodyTurnedAway(e, replies, cfg, maxTicks);
    }
    NobodyTurnedAwayIff(d, replies, cfg, maxTicks);
  }

  /**
   * A traversal of logged operations from cursors on streams apart: as long as no merge happens
   * onto a stream that somebody who stays is below or above, nobody is ever turned away.
   */
  lemma {:induction false} TraversalTurnsNobodyAway(cursors: Cursors, w: Buckets, replies: Executor, cfg: Config,
                                                    maxTicks: int, r: Runtime, log: Log)
    requires Orderly(w) && AllEmpty(w) && StartsOn(r, cursors) && PrefixFree(cursors, [])
    requires Logged(r.commits, Traversal(cursors, w, replies, cfg, maxTicks).books.commits, log)
    requires MergesAlone(cursors, Traversal(cursors, w, replies, cfg, maxTicks).books.commits, log)
    ensures Traversal(cursors, w, replies, cfg, maxTicks).books.repeated == []
  {
    var d0 := Opened(cursors, w);
    var d := RouteEach(d0, cursors, cfg);
    var all := Traversal(cursors, w, replies, cfg, maxTicks).books.commits;
    TraversalAccounts(cursors, w, replies, cfg, maxTicks);
    FreeAlongIff(r, cursors, all, log);
    OpenedHolds(cursors, w, maxTicks);
    RouteEachKeeps(d0, cursors, cfg);
    RouteEachTicks(d0, cursors, cfg);
    FaithfulSame(d0.books, d.books, d0.parked);
    DriveGrows(d, replies, cfg, maxTicks);
    RouteEachApart(d0, cursors, cfg, all);
    RouteEachIff(d0, cursors, cfg);
    NobodyTurnedAway(d, replies, cfg, maxTicks);
  }
}
