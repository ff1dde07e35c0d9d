/**
 * `DagJoinBarrier` (node/runtime/phase.py): buckets of waiting cursors per node, released when
 * enough distinct streams have arrived, or drained.
 */
module JoinBarrier {
  import opened BranchCursors

  type Buckets = map<string, seq<BranchCursor>>

  function Bucket(w: Buckets, node: string): seq<BranchCursor> {
    if node in w then w[node] else []
  }

  predicate Present(bucket: seq<BranchCursor>, stream: string) {
    exists i :: 0 <= i < |bucket| && bucket[i].streamId == stream
  }

  /** The bucket after `c` has arrived: a stream that already waits is not added again. */
  function Joined(bucket: seq<BranchCursor>, c: BranchCursor): seq<BranchCursor> {
    if Present(bucket, c.streamId) then bucket else bucket + [c]
  }

  datatype Arrival = Arrival(fired: bool, ready: seq<BranchCursor>)

  function ArriveResult(w: Buckets, c: BranchCursor, expected: int): Arrival {
    var b := Joined(Bucket(w, c.node), c);
    if |b| >= expected then Arrival(true, b) else Arrival(false, [])
  }

  function AfterArrive(w: Buckets, c: BranchCursor, expected: int): Buckets {
    var b := Joined(Bucket(w, c.node), c);
    w[c.node := if |b| >= expected then [] else b]
  }

  function AfterDrain(w: Buckets, node: string): Buckets {
    if node in w then w[node := []] else w
  }

  function AfterDrainAll(w: Buckets): Buckets {
    map n | n in w :: []
  }

  // --- Invariant --------------------------------------------------------------------------------------

  ghost predicate DistinctStreams(bucket: seq<BranchCursor>) {
    forall i, j :: 0 <= i < j < |bucket| ==> bucket[i].streamId != bucket[j].streamId
  }

  /** Every cursor waits at its own node, and no stream waits twice in a bucket. */
  ghost predicate Orderly(w: Buckets) {
    forall n :: n in w ==> DistinctStreams(w[n]) && forall i :: 0 <= i < |w[n]| ==> w[n][i].node == n
  }

  function Streams(bucket: seq<BranchCursor>): set<string> {
    set c | c in bucket :: c.streamId
  }

  /** How often `c` waits anywhere in the barrier: only its own node's bucket can hold it. */
  ghost function Waiting(w: Buckets, c: BranchCursor): nat {
    multiset(Bucket(w, c.node))[c]
  }

  lemma {:induction false} JoinedOrderly(bucket: seq<BranchCursor>, c: BranchCursor)
    requires DistinctStreams(bucket)
    ensures DistinctStreams(Joined(bucket, c))
    ensures Streams(Joined(bucket, c)) == Streams(bucket) + {c.streamId}
    ensures |Joined(bucket, c)| == |bucket| + (if Present(bucket, c.streamId) then 0 else 1)
  {
    if Present(bucket, c.streamId) {
      var i :| 0 <= i < |bucket| && bucket[i].streamId == c.streamId;
      assert bucket[i] in bucket;
    } else {
      var b := bucket + [c];
      forall s ensures s in Streams(b) <==> s in Streams(bucket) || s == c.streamId {
        if s == c.streamId { assert c in b; }
        if s in Streams(bucket) { var x :| x in bucket && x.streamId == s; assert x in b; }
      }
    }
  }

  /** A bucket of distinct streams is as long as its set of streams. */
  lemma {:induction false} StreamsCount(bucket: seq<BranchCursor>)
    requires DistinctStreams(bucket)
    ensures |Streams(bucket)| == |bucket|
    decreases |bucket|
  {
    if bucket == [] {
      assert Streams(bucket) == {};
    } else {
      var n := |bucket| - 1;
      StreamsCount(bucket[..n]);
      assert bucket == bucket[..n] + [bucket[n]];
      forall x | x in bucket[..n] ensures x.streamId != bucket[n].streamId {
        var i :| 0 <= i < n && bucket[i] == x;
      }
      forall s ensures s in Streams(bucket) <==> s in Streams(bucket[..n]) || s == bucket[n].streamId {
        if s in Streams(bucket[..n]) { var x :| x in bucket[..n] && x.streamId == s; assert x in bucket; }
        assert bucket[n] in bucket;
      }
      assert Streams(bucket) == Streams(bucket[..n]) + {bucket[n].streamId};
      assert bucket[n].streamId !in Streams(bucket[..n]);
    }
  }

  // --- Runs ---------------------------------------------------------------------------------------------

  datatype Call =
    | Arrive(c: BranchCursor, expected: int)
    | Drain(node: string)
    | DrainAll

  function Step(w: Buckets, call: Call): Buckets {
    match call
    case Arrive(c, n) => AfterArrive(w, c, n)
    case Drain(node) => AfterDrain(w, node)
    case DrainAll => AfterDrainAll(w)
  }

  /** How often the call puts `c` into the barrier. */
  ghost function Accepted(w: Buckets, call: Call, c: BranchCursor): nat {
    if call.Arrive? && call.c == c && !Present(Bucket(w, c.node), c.streamId) then 1 else 0
  }

  /** How often the call hands `c` back. */
  ghost function Returned(w: Buckets, call: Call, c: BranchCursor): nat {
    match call
    case Arrive(x, n) => multiset(ArriveResult(w, x, n).ready)[c]
    case Drain(node) => multiset(Bucket(w, node))[c]
    case DrainAll => Waiting(w, c)
  }

  ghost function TotalAccepted(w: Buckets, calls: seq<Call>, c: BranchCursor): nat
    decreases |calls|
  {
    if calls == [] then 0 else Accepted(w, calls[0], c) + TotalAccepted(Step(w, calls[0]), calls[1..], c)
  }

  ghost function TotalReturned(w: Buckets, calls: seq<Call>, c: BranchCursor): nat
    decreases |calls|
  {
    if calls == [] then 0 else Returned(w, calls[0], c) + TotalReturned(Step(w, calls[0]), calls[1..], c)
  }

  function Run(w: Buckets, calls: seq<Call>): Buckets
    decreases |calls|
  {
    if calls == [] then w else Run(Step(w, calls[0]), calls[1..])
  }

  lemma {:induction false} StepOrderly(w: Buckets, call: Call)
    requires Orderly(w)
    ensures Orderly(Step(w, call))
  {
    if call.Arrive? { JoinedOrderly(Bucket(w, call.c.node), call.c); }
  }

  lemma {:induction false} ElsewhereNever(bucket: seq<BranchCursor>, node: string, c: BranchCursor)
    requires forall i :: 0 <= i < |bucket| ==> bucket[i].node == node
    requires c.node != node
    ensures multiset(bucket)[c] == 0
  {
    if c in multiset(bucket) { assert c in bucket; }
  }

  lemma {:induction false} JoinedCount(bucket: seq<BranchCursor>, x: BranchCursor, c: BranchCursor)
    ensures multiset(Joined(bucket, x))[c]
         == multiset(bucket)[c] + (if c == x && !Present(bucket, x.streamId) then 1 else 0)
  {
    if !Present(bucket, x.streamId) {
      assert multiset(bucket + [x]) == multiset(bucket) + multiset{x};
    }
  }

  lemma {:induction false} ArriveAccounts(w: Buckets, x: BranchCursor, n: int, c: BranchCursor)
    requires Orderly(w)
    ensures Waiting(w, c) + Accepted(w, Arrive(x, n), c) == Waiting(Step(w, Arrive(x, n)), c) +
            Returned(w, Arrive(x, n), c)
  {
    var b := Bucket(w, x.node);
    if c.node == x.node {
      JoinedCount(b, x, c);
      assert multiset([])[c] == 0;
    } else {
      JoinedOrderly(b, x);
      forall i | 0 <= i < |Joined(b, x)| ensures Joined(b, x)[i].node == x.node {}
      ElsewhereNever(Joined(b, x), x.node, c);
    }
  }

  lemma {:induction false} StepAccounts(w: Buckets, call: Call, c: BranchCursor)
    requires Orderly(w)
    ensures Waiting(w, c) + Accepted(w, call, c) == Waiting(Step(w, call), c) + Returned(w, call, c)
  {
    match call {
      case Arrive(x, n) => ArriveAccounts(w, x, n, c);
      case Drain(node) =>
        if c.node != node { ElsewhereNever(Bucket(w, node), node, c); }
      case DrainAll =>
    }
  }

  /**
   * Over every run of calls, whatever counts are expected: buckets hold pairwise distinct
   * streams, and every accepted cursor either still waits or was handed back exactly once.
   */
  lemma {:induction false} NothingLostOrRepeated(w: Buckets, calls: seq<Call>, c: BranchCursor)
    requires Orderly(w)
    ensures Orderly(Run(w, calls))
    ensures Waiting(w, c) + TotalAccepted(w, calls, c) == Waiting(Run(w, calls), c) + TotalReturned(w, calls, c)
    decreases |calls|
  {
    if calls != [] {
      StepOrderly(w, calls[0]);
      StepAccounts(w, calls[0], c);
      NothingLostOrRepeated(Step(w, calls[0]), calls[1..], c);
    }
  }

  // --- When the barrier fires -----------------------------------------------------------------------------

  /** The streams that have arrived at `node` since it last fired or was drained. */
  function Gathered(node: string, before: set<string>, call: Call): set<string> {
    match call
    case Arrive(c, n) =>
      if c.node != node then before
      else if |before + {c.streamId}| >= n then {}
      else before + {c.streamId}
    case Drain(drained) => if drained == node then {} else before
    case DrainAll => {}
  }

  function GatheredOver(node: string, before: set<string>, calls: seq<Call>): set<string>
    decreases |calls|
  {
    if calls == [] then before else GatheredOver(node, Gathered(node, before, calls[0]), calls[1..])
  }

  /** A node's bucket holds exactly the streams gathered since it last fired or was drained. */
  lemma {:induction false} StepGathers(w: Buckets, call: Call, node: string)
    requires Orderly(w)
    ensures Streams(Bucket(Step(w, call), node)) == Gathered(node, Streams(Bucket(w, node)), call)
  {
    assert Streams([]) == {};
    if call.Arrive? && call.c.node == node {
      JoinedOrderly(Bucket(w, node), call.c);
      StreamsCount(Joined(Bucket(w, node), call.c));
    }
  }

  lemma {:induction false} RunGathers(w: Buckets, calls: seq<Call>, node: string)
    requires Orderly(w)
    ensures Orderly(Run(w, calls))
    ensures Streams(Bucket(Run(w, calls), node)) == GatheredOver(node, Streams(Bucket(w, node)), calls)
    decreases |calls|
  {
    if calls != [] {
      StepOrderly(w, calls[0]);
      StepGathers(w, calls[0], node);
      RunGathers(Step(w, calls[0]), calls[1..], node);
    }
  }

  /**
   * After any run of calls, at any nodes and with any expected counts, an arrival fires exactly
   * when it brings the number of distinct streams gathered at its node to the expected count, and
   * then hands back exactly one cursor of each of them.
   */
  lemma {:induction false} FiresOnExpectedDistinct(w: Buckets, calls: seq<Call>, c: BranchCursor, n: int)
    requires Orderly(w) && Bucket(w, c.node) == []
    ensures var r := ArriveResult(Run(w, calls), c, n);
            var gathered := GatheredOver(c.node, {}, calls) + {c.streamId};
            && (r.fired <==> |gathered| >= n)
            && (r.fired ==> |r.ready| == |gathered| && DistinctStreams(r.ready) && Streams(r.ready) == gathered)
            && (r.fired ==> Bucket(AfterArrive(Run(w, calls), c, n), c.node) == [])
  {
    assert Streams([]) == {};
    RunGathers(w, calls, c.node);
    JoinedOrderly(Bucket(Run(w, calls), c.node), c);
    StreamsCount(Joined(Bucket(Run(w, calls), c.node), c));
  }

  /** Every arrival of the run at `node` expects `n`. */
  ghost predicate AllExpect(calls: seq<Call>, node: string, n: int) {
    forall i :: 0 <= i < |calls| && calls[i].Arrive? && calls[i].c.node == node ==> calls[i].expected == n
  }

  lemma {:induction false} GatheredBelow(node: string, before: set<string>, calls: seq<Call>, n: nat)
    requires AllExpect(calls, node, n) && |before| < n
    ensures |GatheredOver(node, before, calls)| < n
    decreases |calls|
  {
    if calls != [] {
      forall i | 0 <= i < |calls[1..]| && calls[1..][i].Arrive? && calls[1..][i].c.node == node
        ensures calls[1..][i].expected == n
      { assert calls[1..][i] == calls[i + 1]; }
      GatheredBelow(node, Gathered(node, before, calls[0]), calls[1..], n);
    }
  }

  /**
   * With a fixed expected count n at a node, whatever happens at other nodes, its barrier fires
   * exactly on the n-th distinct stream since it last fired or was drained, with n distinct streams.
   */
  lemma {:induction false} FiresOnNthDistinct(w: Buckets, calls: seq<Call>, c: BranchCursor, n: nat)
    requires Orderly(w) && Bucket(w, c.node) == [] && n > 0 && AllExpect(calls, c.node, n)
    ensures var r := ArriveResult(Run(w, calls), c, n);
            var gathered := GatheredOver(c.node, {}, calls) + {c.streamId};
            && (r.fired <==> |gathered| == n)
            && (r.fired ==> |r.ready| == n && DistinctStreams(r.ready) && Streams(r.ready) == gathered)
  {
    GatheredBelow(c.node, {}, calls, n);
    FiresOnExpectedDistinct(w, calls, c, n);
    OneMore(GatheredOver(c.node, {}, calls), c.streamId);
  }

  lemma {:induction false} OneMore(s: set<string>, x: string)
    ensures |s + {x}| <= |s| + 1
  {
    if x in s { assert s + {x} == s; }
  }

  // --- The class -------------------------------------------------------------------------------------------

  class Barrier {
    const joinNodes: set<string>
    var waiting: Buckets

    ghost predicate Valid()
      reads this
    {
      Orderly(waiting)
    }

    constructor (joinNodes: set<string>)
      ensures Valid() && this.joinNodes == joinNodes && waiting.Keys == joinNodes
      ensures forall n :: Bucket(waiting, n) == []
    {
      this.joinNodes := joinNodes;
      waiting := map n | n in joinNodes :: [];
    }

    /** `is_join_point`. */
    predicate IsJoinPoint(node: string) {
      node in joinNodes
    }

    /** `arrive`. */
    method ArriveAt(cursor: BranchCursor, expected: int) returns (fired: bool, ready: seq<BranchCursor>)
      requires Valid()
      modifies this
      ensures Valid() && waiting == AfterArrive(old(waiting), cursor, expected)
      ensures Arrival(fired, ready) == ArriveResult(old(waiting), cursor, expected)
      ensures DistinctStreams(ready)
    {
      StepOrderly(waiting, Arrive(cursor, expected));
      JoinedOrderly(Bucket(waiting, cursor.node), cursor);
      var bucket := Bucket(waiting, cursor.node);
      var seen := false;
      for i := 0 to |bucket|
        invariant seen <==> exists j :: 0 <= j < i && bucket[j].streamId == cursor.streamId
      {
        if bucket[i].streamId == cursor.streamId { seen := true; }
      }
      if !seen { bucket := bucket + [cursor]; }
      if |bucket| >= expected {
        waiting := waiting[cursor.node := []];
        return true, bucket;
      }
      waiting := waiting[cursor.node := bucket];
      return false, [];
    }

    /** `drain_waiting(node_id)`. */
    method DrainNode(node: string) returns (stranded: seq<BranchCursor>)
      requires Valid()
      modifies this
      ensures Valid() && waiting == AfterDrain(old(waiting), node) && stranded == Bucket(old(waiting), node)
    {
      stranded := Bucket(waiting, node);
      if node in waiting { waiting := waiting[node := []]; }
    }

    /** `drain_waiting()`: every bucket in turn, in an arbitrary order. */
    method DrainEverything() returns (stranded: seq<BranchCursor>)
      requires Valid()
      modifies this
      ensures Valid() && waiting == AfterDrainAll(old(waiting))
      ensures forall c :: multiset(stranded)[c] == Waiting(old(waiting), c)
    {
      ghost var start := waiting;
      stranded := [];
      var todo := waiting.Keys;
      while todo != {}
        invariant todo <= start.Keys && Remaining(start, waiting, todo)
        invariant Drained(start, todo, stranded)
        decreases todo
      {
        var n :| n in todo;
        DrainedStep(start, todo, stranded, n);
        stranded := stranded + waiting[n];
        waiting := waiting[n := []];
        todo := todo - {n};
      }
    }
  }

  /** The buckets of `todo` are still to be drained, the others are empty. */
  ghost predicate Remaining(start: Buckets, now: Buckets, todo: set<string>) {
    now.Keys == start.Keys && forall n :: n in start ==> now[n] == if n in todo then start[n] else []
  }

  ghost predicate Drained(start: Buckets, todo: set<string>, stranded: seq<BranchCursor>) {
    forall c :: multiset(stranded)[c] == if c.node in todo then 0 else Waiting(start, c)
  }

  lemma {:induction false} DrainedStep(start: Buckets, todo: set<string>, stranded: seq<BranchCursor>, n: string)
    requires Orderly(start) && Drained(start, todo, stranded) && n in todo && n in start
    ensures Drained(start, todo - {n}, stranded + start[n])
  {
    forall c ensures multiset(stranded + start[n])[c] == if c.node in todo - {n} then 0 else Waiting(start, c) {
      assert multiset(stranded)[c] == if c.node in todo then 0 else Waiting(start, c);
      if c.node != n { ElsewhereNever(start[n], n, c); }
    }
  }
}
