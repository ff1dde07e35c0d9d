/**
 * A traversal in which one stream id comes into being twice: "s" forks; its first child forks again
 * and those two merge back onto "s" while the second child is still under way; "s" forks a second
 * time. Two cursors are then on the second child's stream, and they meet at the join.
 */
module StreamCollision {
  import opened Wrappers
  import PtaLedger
  import opened BranchCursors
  import opened BranchRuntime
  import opened FuelSlices
  import opened JoinBarrier
  import opened QueueBooks
  import opened QueueDriver
  import opened QueueStreams
  import opened Sequences
  import opened StreamIds
  import opened TraversalLedger

  const ROOT := BranchCursor("s", PtaLedger.Pointer("g", 0), "branch:x", "A", 8, "o", map[], [], 1)

  function Child(p: BranchCursor, i: nat, node: string, hash: string): BranchCursor {
    Heir(p, p.(node := node), ChildId(p.streamId, i), p.fuel / 2).(pointer := PtaLedger.Pointer(hash, i))
  }

  function Next(c: BranchCursor, node: string, hash: string): BranchCursor {
    Heir(c, c.(node := node), c.streamId, c.fuel - 1).(pointer := PtaLedger.Pointer(hash, 0))
  }

  /** The first child of "s" forks again, and its children merge back onto "s". */
  function Back(): BranchCursor {
    var left := Child(ROOT, 0, "B", "f1");
    Merged([Child(left, 0, "J", "f2"), Child(left, 1, "J", "f2")], 0, "s").value.(pointer := PtaLedger.Pointer("m", 0))
  }

  /** Meanwhile the second child goes on, and comes late to the join. */
  function Onward(): BranchCursor {
    Next(Child(ROOT, 1, "C", "f1"), "D", "f3")
  }

  function Late(): BranchCursor {
    Next(Onward(), "J", "f5")
  }

  /** One join node; merges go to the base stream "s". */
  function OneJoin(): Config {
    Config({"J"}, (cs: Cursors) => 0, "s", (k: nat) => Some(PtaLedger.Pointer("m", k)))
  }

  /** The merged cursor forks a second time, so that two cursors are on the second child's stream. */
  function Script(): Executor {
    (tick, c) =>
      if tick == 1 then Forked([Child(c, 0, "B", "f1"), Child(c, 1, "C", "f1")])
      else if tick == 2 then Forked([Child(c, 0, "J", "f2"), Child(c, 1, "J", "f2")])
      else if tick == 3 then Stepped(Next(c, "D", "f3"))
      else if tick == 4 then Forked([Child(c, 0, "E", "f4"), Child(c, 1, "J", "f4")])
      else Stepped(Next(c, "J", "f5"))
  }

  /** The desk as far as the script depends on it. */
  ghost predicate Shows(d: Desk, queue: Cursors, expected: int, ticks: nat, commits: seq<Commit>) {
    && d.queue == queue && d.expected == expected && d.ticks == ticks && !d.raised && d.books.repeated == []
    && d.books.commits == commits
  }

  function ForkOf(p: BranchCursor, a: string, b: string, hash: string): Commit {
    Commit([p], [Child(p, 0, a, hash), Child(p, 1, b, hash)])
  }

  /** What the script has committed after `k` transitions. */
  function Made(k: nat): (r: seq<Commit>)
    requires k <= 6
    ensures |r| == k
  {
    var left, right := Child(ROOT, 0, "B", "f1"), Child(ROOT, 1, "C", "f1");
    [ForkOf(ROOT, "B", "C", "f1"), ForkOf(left, "J", "J", "f2"),
     Commit([Child(left, 0, "J", "f2"), Child(left, 1, "J", "f2")], [Back()]), Commit([right], [Onward()]),
     ForkOf(Back(), "E", "J", "f4"), Commit([Onward()], [Late()])][..k]
  }

  lemma {:induction false} MadeSnoc(k: nat)
    requires k < 6
    ensures Made(k + 1) == Made(k) + [Made(6)[k]]
  {
  }

  /** A fork into two children is their routing, one after the other, with two expected. */
  lemma {:induction false} ForkTwo(d: Desk, a: BranchCursor, b: BranchCursor)
    requires d.queue != [] && !IsTerminated(d.queue[0]) && !d.raised &&
             Script()(d.ticks + 1, d.queue[0]) == Forked([a, b])
    ensures var e := Forking(Taken(d), d.queue[0], [a, b]);
            var f := Route(e, a, OneJoin());
            && e.queue == d.queue[1..] && e.expected == 2 && e.ticks == d.ticks + 1 && e.waiting == d.waiting
            && e.books.repeated == d.books.repeated && !e.raised
            && e.books.commits == d.books.commits + [Commit([d.queue[0]], [a, b])]
            && (!f.raised && !Route(f, b, OneJoin()).raised ==> Turn(d, Script(), OneJoin()) == Route(f, b, OneJoin()))
  {
    var e := Forking(Taken(d), d.queue[0], [a, b]);
    assert [a, b][1..] == [b] && [b][1..] == [];
    var f := Route(e, a, OneJoin());
    if !f.raised && !Route(f, b, OneJoin()).raised {
      assert RouteEach(f, [b], OneJoin()) == RouteEach(Route(f, b, OneJoin()), [], OneJoin());
    }
  }

  lemma {:induction false} FirstFork(d: Desk)
    requires Shows(d, [ROOT], 1, 0, Made(0)) && Bucket(d.waiting, "J") == []
    ensures var e := Turn(d, Script(), OneJoin());
            && Shows(e, [Child(ROOT, 0, "B", "f1"), Child(ROOT, 1, "C", "f1")], 2, 1, Made(1))
            && Bucket(e.waiting, "J") == []
  {
    MadeSnoc(0);
    ForkTwo(d, Child(ROOT, 0, "B", "f1"), Child(ROOT, 1, "C", "f1"));
  }

  lemma {:induction false} NestedFork(d: Desk)
    requires Shows(d, [Child(ROOT, 0, "B", "f1"), Child(ROOT, 1, "C", "f1")], 2, 1, Made(1))
    requires Bucket(d.waiting, "J") == [] && d.collapses == 0
    ensures var e := Turn(d, Script(), OneJoin());
            Shows(e, [Child(ROOT, 1, "C", "f1"), Back()], 1, 2, Made(3)) && Bucket(e.waiting, "J") == []
  {
    var left := d.queue[0];
    var a, b := Child(left, 0, "J", "f2"), Child(left, 1, "J", "f2");
    MadeSnoc(1);
    MadeSnoc(2);
    ForkTwo(d, a, b);
    var e := Forking(Taken(d), left, [a, b]);
    var f := Route(e, a, OneJoin());
    assert [] + [a] == [a] && [a] + [b] == [a, b];
    assert Bucket(f.waiting, "J") == [a] && f.queue == e.queue && !f.raised && f.expected == 2;
    ChildrenApart(left.streamId, 0, 1);
    assert !Present([a], b.streamId);
    assert ArriveResult(f.waiting, b, 2) == Arrival(true, [a, b]);
    assert Joint([a, b], 0, OneJoin()) == Some(Back());
  }

  lemma {:induction false} StepOn(d: Desk)
    requires Shows(d, [Child(ROOT, 1, "C", "f1"), Back()], 1, 2, Made(3))
    ensures var e := Turn(d, Script(), OneJoin());
            Shows(e, [Back(), Onward()], 1, 3, Made(4)) && e.waiting == d.waiting
  {
    MadeSnoc(3);
    assert d.queue[1..] == [Back()];
    assert Taken(d).ticks == 3 && Script()(3, d.queue[0]) == Stepped(Onward());
    assert [Back()] + [Onward()] == [Back(), Onward()];
  }

  lemma {:induction false} SecondFork(d: Desk)
    requires Shows(d, [Back(), Onward()], 1, 3, Made(4)) && Bucket(d.waiting, "J") == []
    ensures var e := Turn(d, Script(), OneJoin());
            && Shows(e, [Onward(), Child(Back(), 0, "E", "f4")], 2, 4, Made(5))
            && Bucket(e.waiting, "J") == [Child(Back(), 1, "J", "f4")]
  {
    var a, b := Child(Back(), 0, "E", "f4"), Child(Back(), 1, "J", "f4");
    MadeSnoc(4);
    ForkTwo(d, a, b);
    var e := Forking(Taken(d), d.queue[0], [a, b]);
    assert e.queue == [Onward()];
    var f := Route(e, a, OneJoin());
    assert f == e.(queue := e.queue + [a]) && Bucket(f.waiting, "J") == [];
    assert [Onward()] + [a] == [Onward(), a];
    assert [] + [b] == [b];
    assert ArriveResult(f.waiting, b, 2) == Arrival(false, []);
  }

  lemma {:induction false} MeetsItself(d: Desk)
    requires Shows(d, [Onward(), Child(Back(), 0, "E", "f4")], 2, 4, Made(5))
    requires Bucket(d.waiting, "J") == [Child(Back(), 1, "J", "f4")]
    ensures var e := Turn(d, Script(), OneJoin());
            e.books.repeated == [Late()] && e.books.commits == Made(6) && e.ticks == 5
  {
    MadeSnoc(5);
    assert Taken(d).ticks == 5 && Script()(5, d.queue[0]) == Stepped(Late());
    var e := Taken(d).(books := Recorded(Taken(d).books, Commit([d.queue[0]], [Late()])));
    assert Present(Bucket(e.waiting, "J"), Late().streamId) by {
      assert Bucket(e.waiting, "J")[0].streamId == Late().streamId;
    }
    TurnedAwayIff(e, Late(), OneJoin());
    RouteTicks(e, Late(), OneJoin());
    assert [] + [Late()] == [Late()];
  }

  /** The script creates the second child's stream twice, and the barrier turns the late one away. */
  lemma {:induction false} StreamIdTwice()
    ensures var d := Traversal([ROOT], map["J" := []], Script(), OneJoin(), 5);
            d.books.repeated == [Late()] && d.books.commits == Made(6)
  {
    var d0 := RouteEach(Opened([ROOT], map["J" := []]), [ROOT], OneJoin());
    var cfg := OneJoin();
    assert [ROOT][1..] == [] && [] + [ROOT] == [ROOT];
    assert Shows(d0, [ROOT], 1, 0, Made(0));
    FirstFork(d0);
    var d1 := Turn(d0, Script(), cfg);
    NestedFork(d1);
    var d2 := Turn(d1, Script(), cfg);
    StepOn(d2);
    var d3 := Turn(d2, Script(), cfg);
    SecondFork(d3);
    var d4 := Turn(d3, Script(), cfg);
    MeetsItself(d4);
    FiveTurns(d0);
  }

  lemma {:induction false} FiveTurns(d: Desk)
    requires Runs(d, 5)
    requires var d1 := Turn(d, Script(), OneJoin());
             && Runs(d1, 5)
             && var d2 := Turn(d1, Script(), OneJoin());
             && Runs(d2, 5)
             && var d3 := Turn(d2, Script(), OneJoin());
             && Runs(d3, 5)
             && var d4 := Turn(d3, Script(), OneJoin());
             && Runs(d4, 5) && Turn(d4, Script(), OneJoin()).ticks == 5
    ensures Drive(d, Script(), OneJoin(), 5)
         == Turn(Turn(Turn(Turn(Turn(d, Script(), OneJoin()), Script(), OneJoin()), Script(), OneJoin()),
                      Script(), OneJoin()),
                 Script(), OneJoin())
  {
    var d1 := Turn(d, Script(), OneJoin());
    var d2 := Turn(d1, Script(), OneJoin());
    var d3 := Turn(d2, Script(), OneJoin());
    var d4 := Turn(d3, Script(), OneJoin());
    var d5 := Turn(d4, Script(), OneJoin());
    OneTurn(d4);
    OneTurn(d3);
    OneTurn(d2);
    OneTurn(d1);
    OneTurn(d);
    assert Drive(d5, Script(), OneJoin(), 5) == d5;
  }

  lemma {:induction false} OneTurn(d: Desk)
    requires Runs(d, 5)
    ensures Drive(d, Script(), OneJoin(), 5) == Drive(Turn(d, Script(), OneJoin()), Script(), OneJoin(), 5)
  {
  }

  // --- The script commits operations of the runtime ----------------------------------------------------

  function HashEnv(hash: string): Env {
    Env("ACTIVE", hash, AnySign(), AnySize())
  }

  function Halve(p: BranchCursor, a: string, b: string): Move {
    Fork(p, [p.(node := a), p.(node := b)], [], 0)
  }

  function StepTo(c: BranchCursor, node: string): Move {
    StepMove(c, 1, c.(node := node))
  }

  lemma {:induction false} HalveCarries(p: BranchCursor, a: string, b: string, hash: string)
    requires p.fuel >= 0 && p.fuel % 2 == 0
    ensures Carries(ForkOf(p, a, b, hash), Halve(p, a, b), HashEnv(hash))
  {
    var m := Halve(p, a, b);
    assert EqualShares(p.fuel, 2) == [p.fuel / 2, p.fuel / 2];
    var made := Committed(Creates(m).value, hash);
    assert made == [Child(p, 0, a, hash), Child(p, 1, b, hash)];
  }

  lemma {:induction false} StepCarries(c: BranchCursor, node: string, hash: string)
    requires !IsTerminated(c) && c.fuel >= 1
    ensures Carries(Commit([c], [Next(c, node, hash)]), StepTo(c, node), HashEnv(hash))
  {
    assert Committed(Creates(StepTo(c, node)).value, hash) == [Next(c, node, hash)];
  }

  lemma {:induction false} MergeCarries(a: BranchCursor, b: BranchCursor, stream: string, hash: string)
    ensures var merged := Merged([a, b], 0, stream).value.(pointer := PtaLedger.Pointer(hash, 0));
            Carries(Commit([a, b], [merged]), Merge([a, b], 0, stream), HashEnv(hash))
  {
    var w := Merged([a, b], 0, stream).value;
    assert Committed([w], hash) == [w.(pointer := PtaLedger.Pointer(hash, 0))];
  }

  /** The operations of the script: two halvings, the merge, a step, a third halving, and the late step. */
  function ScriptLog(k: nat): (r: Log)
    requires k <= 6
    ensures |r| == k
  {
    var left, right := Child(ROOT, 0, "B", "f1"), Child(ROOT, 1, "C", "f1");
    [(Halve(ROOT, "B", "C"), HashEnv("f1")), (Halve(left, "J", "J"), HashEnv("f2")),
     (Merge([Child(left, 0, "J", "f2"), Child(left, 1, "J", "f2")], 0, "s"), HashEnv("m")),
     (StepTo(right, "D"), HashEnv("f3")), (Halve(Back(), "E", "J"), HashEnv("f4")),
     (StepTo(Onward(), "J"), HashEnv("f5"))][..k]
  }

  lemma {:induction false} ScriptCarries(k: nat)
    requires k < 6
    ensures Carries(Made(6)[k], ScriptLog(6)[k].0, ScriptLog(6)[k].1)
  {
    var left, right := Child(ROOT, 0, "B", "f1"), Child(ROOT, 1, "C", "f1");
    if k == 0 { HalveCarries(ROOT, "B", "C", "f1"); }
    else if k == 1 { HalveCarries(left, "J", "J", "f2"); }
    else if k == 2 { MergeCarries(Child(left, 0, "J", "f2"), Child(left, 1, "J", "f2"), "s", "m"); }
    else if k == 3 { StepCarries(right, "D", "f3"); }
    else if k == 4 { BackFuel(); HalveCarries(Back(), "E", "J", "f4"); }
    else { StepCarries(Onward(), "J", "f5"); }
  }

  lemma {:induction false} BackFuel()
    ensures Back().fuel == 4
  {
    var left := Child(ROOT, 0, "B", "f1");
    var a, b := Child(left, 0, "J", "f2"), Child(left, 1, "J", "f2");
    FuelSumOne(a);
    assert [a, b][..1] == [a] && [a, b][1] == b;
  }

  lemma {:induction false} ScriptHashes(i: nat, j: nat)
    requires i < j < 6
    ensures ScriptLog(6)[i].1.hash != ScriptLog(6)[j].1.hash
  {
    var hashes := ["f1", "f2", "m", "f3", "f4", "f5"];
    assert forall k :: 0 <= k < 6 ==> ScriptLog(6)[k].1.hash == hashes[k];
    assert hashes[i] != hashes[j] by { assert hashes[i][|hashes[i]| - 1] != hashes[j][|hashes[j]| - 1]; }
  }

  /** When the first fork's children merge, the second child is still live below the stream they merge onto. */
  lemma {:induction false} MergeNotAlone()
    ensures !Alone([ROOT], Made(2), Made(3)[2], "s")
  {
    var right := Child(ROOT, 1, "C", "f1");
    ChildUnder("s", 1);
    RightLive();
    assert right !in Made(3)[2].spent;
    assert Stays([ROOT], Made(2), Made(3)[2], right);
  }

  lemma {:induction false} RightLive()
    ensures LiveCount([ROOT], Made(2), Child(ROOT, 1, "C", "f1")) == 1
  {
    var left, right := Child(ROOT, 0, "B", "f1"), Child(ROOT, 1, "C", "f1");
    MadeSnoc(0);
    MadeSnoc(1);
    LiveSnoc([ROOT], Made(0), Made(6)[0], right);
    LiveSnoc([ROOT], Made(1), Made(6)[1], right);
    CountPair(left, right, right);
    CountOne(ROOT, right);
    CountOne(left, right);
    CountPair(Child(left, 0, "J", "f2"), Child(left, 1, "J", "f2"), right);
  }

  lemma {:induction false} CountOne(a: BranchCursor, c: BranchCursor)
    ensures Count([a], c) == if a == c then 1 else 0
  {
    CountSnoc([], a, c);
    assert [] + [a] == [a];
  }

  lemma {:induction false} CountPair(a: BranchCursor, b: BranchCursor, c: BranchCursor)
    ensures Count([a, b], c) == (if a == c then 1 else 0) + (if b == c then 1 else 0)
  {
    CountOne(a, c);
    CountSnoc([a], b, c);
    assert [a] + [b] == [a, b];
  }

  lemma {:induction false} LogSnoc(k: nat)
    requires k < 6
    ensures ScriptLog(k + 1) == ScriptLog(k) + [ScriptLog(6)[k]]
  {
  }

  lemma {:induction false} ScriptNewHash(k: nat)
    requires k < 6
    ensures NewHash([], ScriptLog(k), ScriptLog(6)[k].1.hash)
  {
    var before := ScriptLog(k);
    forall i | 0 <= i < |before| ensures before[i].1.hash != ScriptLog(6)[k].1.hash {
      assert before[i] == ScriptLog(6)[i];
      ScriptHashes(i, k);
    }
  }

  /** Every transition of the script is an operation of the runtime, under a hash of its own. */
  lemma {:induction false} ScriptLogged(k: nat)
    requires k <= 6
    ensures Logged([], Made(k), ScriptLog(k))
    decreases k
  {
    if k > 0 {
      ScriptLogged(k - 1);
      ScriptCarries(k - 1);
      ScriptNewHash(k - 1);
      MadeSnoc(k - 1);
      LogSnoc(k - 1);
      LoggedSnoc([], Made(k - 1), ScriptLog(k - 1), Made(6)[k - 1], ScriptLog(6)[k - 1].0, ScriptLog(6)[k - 1].1);
    }
  }
}
