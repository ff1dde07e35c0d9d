/**
 * The books of a traversal (node/runtime/fsm/traverser.py): which cursors are live, where each of
 * them is, and what every step of the queue driver does to that account.
 */
module QueueBooks {
  import opened BranchCursors
  import opened JoinBarrier
  import opened Sequences

  type Cursors = seq<BranchCursor>

  /** One committed transition: the cursors it spends and the ones it creates. */
  datatype Commit = Commit(spent: Cursors, made: Cursors)

  datatype Books = Books(initial: Cursors, commits: seq<Commit>,
                         executed: Cursors,     // the cursors whose node was executed, in order
                         parkedFrom: Cursors,   // the cursors that were parked, as they were
                         parkedAs: Cursors,     // the same cursors, as parked
                         repeated: Cursors)     // arrivals of a stream that already waited at the node

  /** How often `c` exists and has not been spent by a transition. */
  function LiveCount(initial: Cursors, commits: seq<Commit>, c: BranchCursor): int
    decreases |commits|
  {
    if commits == [] then Count(initial, c)
    else
      var n := |commits| - 1;
      LiveCount(initial, commits[..n], c) - Count(commits[n].spent, c) + Count(commits[n].made, c)
  }

  /** No transition spends a cursor that is not live at that moment. */
  ghost predicate SpendsOnlyLive(initial: Cursors, commits: seq<Commit>)
    decreases |commits|
  {
    commits != [] ==>
      var n := |commits| - 1;
      && SpendsOnlyLive(initial, commits[..n])
      && forall c :: Count(commits[n].spent, c) <= LiveCount(initial, commits[..n], c)
  }

  function TotalSpent(commits: seq<Commit>, c: BranchCursor): nat
    decreases |commits|
  {
    if commits == [] then 0 else TotalSpent(commits[..|commits| - 1], c) + Count(commits[|commits| - 1].spent, c)
  }

  function TotalMade(commits: seq<Commit>, c: BranchCursor): nat
    decreases |commits|
  {
    if commits == [] then 0 else TotalMade(commits[..|commits| - 1], c) + Count(commits[|commits| - 1].made, c)
  }

  /** A cursor is spent at most as often as it came into being: once, when every pointer is fresh. */
  lemma {:induction false} SpentAtMostOnce(initial: Cursors, commits: seq<Commit>, c: BranchCursor)
    requires SpendsOnlyLive(initial, commits)
    ensures LiveCount(initial, commits, c) == Count(initial, c) + TotalMade(commits, c) - TotalSpent(commits, c)
    ensures TotalSpent(commits, c) <= Count(initial, c) + TotalMade(commits, c)
    decreases |commits|
  {
    if commits != [] { SpentAtMostOnce(initial, commits[..|commits| - 1], c); }
  }

  /**
   * A live cursor is in exactly one place: queue, barrier, parked, completed, turned away as a
   * repeated arrival, or in the hands of the code (`inHand`).
   */
  ghost predicate Balanced(b: Books, queue: Cursors, completed: Cursors, w: Buckets, inHand: Cursors, c: BranchCursor) {
    LiveCount(b.initial, b.commits, c)
      == Count(queue, c) + Waiting(w, c) + Count(b.parkedFrom, c) + Count(completed, c) + Count(b.repeated, c) +
        Count(inHand, c)
  }

  ghost predicate Accounted(b: Books, queue: Cursors, completed: Cursors, w: Buckets, inHand: Cursors) {
    && Orderly(w) && SpendsOnlyLive(b.initial, b.commits)
    && forall c :: Balanced(b, queue, completed, w, inHand, c)
  }

  lemma {:induction false} Enqueue(b: Books, queue: Cursors, completed: Cursors, w: Buckets, rest: Cursors,
                                   x: BranchCursor)
    requires Accounted(b, queue, completed, w, [x] + rest)
    ensures Accounted(b, queue + [x], completed, w, rest)
  {
    forall c ensures Balanced(b, queue + [x], completed, w, rest, c) {
      assert Balanced(b, queue, completed, w, [x] + rest, c);
      CountAppend([x], rest, c);
      CountAppend(queue, [x], c);
    }
  }

  lemma {:induction false} Dequeue(b: Books, queue: Cursors, completed: Cursors, w: Buckets)
    requires queue != [] && Accounted(b, queue, completed, w, [])
    ensures Accounted(b, queue[1..], completed, w, [queue[0]])
  {
    forall c ensures Balanced(b, queue[1..], completed, w, [queue[0]], c) {
      assert Balanced(b, queue, completed, w, [], c);
      assert queue == [queue[0]] + queue[1..];
      CountAppend([queue[0]], queue[1..], c);
    }
  }

  lemma {:induction false} Complete(b: Books, queue: Cursors, completed: Cursors, w: Buckets, x: BranchCursor)
    requires Accounted(b, queue, completed, w, [x])
    ensures Accounted(b, queue, completed + [x], w, [])
  {
    forall c ensures Balanced(b, queue, completed + [x], w, [], c) {
      assert Balanced(b, queue, completed, w, [x], c);
      CountAppend(completed, [x], c);
    }
  }

  function Arrived(b: Books, w: Buckets, x: BranchCursor): Books {
    if Present(Bucket(w, x.node), x.streamId) then b.(repeated := b.repeated + [x]) else b
  }

  lemma {:induction false} ArriveKeeps(b: Books, queue: Cursors, completed: Cursors, w: Buckets, rest: Cursors,
                                       x: BranchCursor, n: int)
    requires Accounted(b, queue, completed, w, [x] + rest)
    ensures Accounted(Arrived(b, w, x), queue, completed, AfterArrive(w, x, n), ArriveResult(w, x, n).ready + rest)
  {
    var ready := ArriveResult(w, x, n).ready;
    StepOrderly(w, Arrive(x, n));
    forall c ensures Balanced(Arrived(b, w, x), queue, completed, AfterArrive(w, x, n), ready + rest, c) {
      assert Balanced(b, queue, completed, w, [x] + rest, c);
      ArriveCount(b, w, x, n, c);
      CountAppend(ready, rest, c);
      CountAppend([x], rest, c);
    }
  }

  lemma {:induction false} ArriveCount(b: Books, w: Buckets, x: BranchCursor, n: int, c: BranchCursor)
    requires Orderly(w)
    ensures Waiting(w, c) + Count(b.repeated, c) + Count([x], c)
         == Waiting(AfterArrive(w, x, n), c) + Count(Arrived(b, w, x).repeated, c) +
           Count(ArriveResult(w, x, n).ready, c)
  {
    StepAccounts(w, Arrive(x, n), c);
    CountIsMultiplicity(ArriveResult(w, x, n).ready, c);
    CountAppend(b.repeated, [x], c);
  }

  function Recorded(b: Books, t: Commit): Books {
    b.(commits := b.commits + [t])
  }

  lemma {:induction false} CommitKeeps(b: Books, queue: Cursors, completed: Cursors, w: Buckets, rest: Cursors,
                                       t: Commit)
    requires Accounted(b, queue, completed, w, t.spent + rest)
    ensures Accounted(Recorded(b, t), queue, completed, w, t.made + rest)
  {
    assert (b.commits + [t])[..|b.commits|] == b.commits;
    forall c ensures Count(t.spent, c) <= LiveCount(b.initial, b.commits, c) {
      assert Balanced(b, queue, completed, w, t.spent + rest, c);
      CountAppend(t.spent, rest, c);
    }
    forall c ensures Balanced(Recorded(b, t), queue, completed, w, t.made + rest, c) {
      assert Balanced(b, queue, completed, w, t.spent + rest, c);
      CountAppend(t.spent, rest, c);
      CountAppend(t.made, rest, c);
    }
  }

  lemma {:induction false} MergeKeeps(b: Books, queue: Cursors, completed: Cursors, w: Buckets, rest: Cursors,
                                      ready: Cursors, merged: BranchCursor)
    requires Accounted(b, queue, completed, w, ready + rest)
    ensures Accounted(Recorded(b, Commit(ready, [merged])), queue + [merged], completed, w, rest)
  {
    CommitKeeps(b, queue, completed, w, rest, Commit(ready, [merged]));
    Enqueue(Recorded(b, Commit(ready, [merged])), queue, completed, w, rest, merged);
  }

  function Parked(b: Books, x: BranchCursor, meta: map<string, string>): Books {
    b.(parkedFrom := b.parkedFrom + [x], parkedAs := b.parkedAs + [x.(meta := meta)])
  }

  lemma {:induction false} ParkKeeps(b: Books, queue: Cursors, completed: Cursors, w: Buckets, rest: Cursors,
                                     x: BranchCursor, meta: map<string, string>)
    requires Accounted(b, queue, completed, w, [x] + rest)
    ensures Accounted(Parked(b, x, meta), queue, completed, w, rest)
  {
    forall c ensures Balanced(Parked(b, x, meta), queue, completed, w, rest, c) {
      assert Balanced(b, queue, completed, w, [x] + rest, c);
      CountAppend([x], rest, c);
      CountAppend(b.parkedFrom, [x], c);
    }
  }

  lemma {:induction false} DrainKeeps(b: Books, queue: Cursors, completed: Cursors, w: Buckets, stranded: Cursors)
    requires Accounted(b, queue, completed, w, [])
    requires forall c :: Count(stranded, c) == Waiting(w, c)
    ensures Accounted(b, queue, completed, AfterDrainAll(w), stranded)
  {
    StepOrderly(w, DrainAll);
    forall c ensures Balanced(b, queue, completed, AfterDrainAll(w), stranded, c) {
      assert Balanced(b, queue, completed, w, [], c);
      StepAccounts(w, DrainAll, c);
    }
  }

  function Executed(b: Books, x: BranchCursor): Books {
    b.(executed := b.executed + [x])
  }

  lemma {:induction false} ExecuteKeeps(b: Books, queue: Cursors, completed: Cursors, w: Buckets, x: BranchCursor)
    requires Accounted(b, queue, completed, w, [x])
    ensures Accounted(Executed(b, x), queue, completed, w, [x])
  {
    forall c ensures Balanced(Executed(b, x), queue, completed, w, [x], c) {
      assert Balanced(b, queue, completed, w, [x], c);
    }
  }

  lemma {:induction false} StrandedAll(stranded: Cursors, w: Buckets)
    requires forall c :: multiset(stranded)[c] == Waiting(w, c)
    ensures forall c :: Count(stranded, c) == Waiting(w, c)
    ensures forall c :: Waiting(w, c) > 0 ==> c in stranded
  {
    forall c ensures Count(stranded, c) == Waiting(w, c) && (Waiting(w, c) > 0 ==> c in stranded) {
      CountIsMultiplicity(stranded, c);
    }
  }

  /**
   * Parking spends nothing: a parked cursor is the one that was in hand, with other metadata, so
   * its pointer, fuel and tick are untouched. The parked table has an entry for every stream in it.
   */
  ghost predicate ParkedFaithfully(b: Books, parked: map<string, BranchCursor>) {
    && |b.parkedAs| == |b.parkedFrom|
    && (forall i :: 0 <= i < |b.parkedAs| ==> b.parkedAs[i] == b.parkedFrom[i].(meta := b.parkedAs[i].meta))
    && (forall i :: 0 <= i < |b.parkedAs| ==> b.parkedAs[i].streamId in parked)
    && (forall s :: s in parked ==> parked[s] in b.parkedAs && parked[s].streamId == s)
  }

  lemma {:induction false} ParkFaithful(b: Books, parked: map<string, BranchCursor>, x: BranchCursor,
                                        meta: map<string, string>)
    requires ParkedFaithfully(b, parked)
    ensures ParkedFaithfully(Parked(b, x, meta), parked[x.streamId := x.(meta := meta)])
    ensures x.streamId in parked ==> ParkedFaithfully(Parked(b, x, meta), parked)
  {
    var b' := Parked(b, x, meta);
    assert b'.parkedAs[|b.parkedAs|] == x.(meta := meta);
    forall y | y in b.parkedAs ensures y in b'.parkedAs {}
  }
}
