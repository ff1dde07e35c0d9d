/**
 * `BranchController` (node/runtime/phase.py) and the fallback of `GraphTraverser`
 * (node/runtime/fsm/traverser.py) as sealed ledger transitions: genesis, step, fork, merge and
 * fallback, and what becomes of the fuel over a whole run.
 */
module BranchRuntime {
  import opened Wrappers
  import opened PtaLedger
  import opened PtaTotals
  import opened BranchCursors
  import opened FuelSlices
  import opened StreamIds

  function Anchors(): Output -> bool {
    (o: Output) => o.asset == ANCHOR_ASSET
  }

  /** The fuel of all live anchors. */
  ghost function LiveFuel(commits: seq<Tx>): int {
    Total(Unspent(commits), Anchors())
  }

  function FuelSum(cs: seq<BranchCursor>): int {
    if cs == [] then 0 else FuelSum(cs[..|cs| - 1]) + cs[|cs| - 1].fuel
  }

  /** The cursor's pointer is unspent and holds an anchor with the cursor's fuel. */
  ghost predicate Live(commits: seq<Tx>, c: BranchCursor) {
    && c.pointer in Unspent(commits)
    && Unspent(commits)[c.pointer].asset == ANCHOR_ASSET && Unspent(commits)[c.pointer].amount == c.fuel
  }

  ghost predicate AllLive(commits: seq<Tx>, cs: seq<BranchCursor>) {
    forall c :: c in cs ==> Live(commits, c)
  }

  predicate DistinctCursors(cs: seq<BranchCursor>) {
    forall i, j :: 0 <= i < j < |cs| ==> cs[i].pointer != cs[j].pointer
  }

  // --- One transition ------------------------------------------------------------------------------

  lemma {:induction false} AnchorOutputsTotal(next: seq<BranchCursor>, status: string, size: Payload -> nat)
    requires AllFit(next, size)
    ensures OutputsTotal(AnchorOutputs(next, status, size), Anchors()) == FuelSum(next)
    decreases |next|
  {
    if next != [] {
      var n := |next| - 1;
      assert next == next[..n] + [next[n]];
      AnchorOutputsTotal(next[..n], status, size);
      assert AnchorOutputs(next, status, size)[..n] == AnchorOutputs(next[..n], status, size);
    }
  }

  lemma {:induction false} SpentInputsTotal(commits: seq<Tx>, spent: seq<BranchCursor>, sign: Pointer -> string)
    requires AllLive(commits, spent)
    ensures InputsTotal(Unspent(commits), SignedInputs(spent, sign), Anchors()) == FuelSum(spent)
    decreases |spent|
  {
    if spent != [] {
      var n := |spent| - 1;
      assert spent == spent[..n] + [spent[n]];
      assert Live(commits, spent[n]);
      SpentInputsTotal(commits, spent[..n], sign);
      assert SignedInputs(spent, sign)[..n] == SignedInputs(spent[..n], sign);
    }
  }

  lemma {:induction false} LiveFunded(commits: seq<Tx>, spent: seq<BranchCursor>, tx: Tx, sign: Pointer -> string)
    requires AllLive(commits, spent) && tx.inputs == SignedInputs(spent, sign)
    ensures Funded(commits, tx)
    ensures DistinctPointers(tx.inputs) <==> DistinctCursors(spent)
  {
    forall p | p in Pointers(tx) ensures p in Unspent(commits) {
      var i :| i in tx.inputs && i.pointer == p;
      var k :| 0 <= k < |tx.inputs| && tx.inputs[k] == i;
      assert Live(commits, spent[k]);
    }
    forall i, j | 0 <= i < j < |spent|
      ensures spent[i].pointer != spent[j].pointer <==> tx.inputs[i].pointer != tx.inputs[j].pointer
    {}
  }

  /** A sealed transition over distinct live cursors replaces their fuel by that of the next ones. */
  lemma {:induction false} TransitionFuel(commits: seq<Tx>, spent: seq<BranchCursor>, next: seq<BranchCursor>,
                                          status: string, hash: string, sign: Pointer -> string, size: Payload -> nat)
    requires InputsKnown(commits) && AllLive(commits, spent) && DistinctCursors(spent) && AllFit(next, size)
    requires Fresh(commits, TransitionTx(spent, next, status, hash, sign, size))
    ensures var tx := TransitionTx(spent, next, status, hash, sign, size);
            && InputsKnown(commits + [tx])
            && LiveFuel(commits + [tx]) == LiveFuel(commits) - FuelSum(spent) + FuelSum(next)
  {
    var tx := TransitionTx(spent, next, status, hash, sign, size);
    LiveFunded(commits, spent, tx, sign);
    SealedUnspent(commits, tx);
    SealedTotal(commits, tx, Anchors());
    ConsumedTotal(Unspent(commits), tx, Anchors());
    SpentInputsTotal(commits, spent, sign);
    AnchorOutputsTotal(next, status, size);
  }

  // --- Repeated cursors ------------------------------------------------------------------------------

  /** What the inputs list beyond the first naming of each pointer. */
  ghost function RepeatedAmount(u: map<Pointer, Output>, inputs: seq<Input>): int
    requires forall i :: i in inputs ==> i.pointer in u
  {
    if inputs == [] then 0
    else
      var n := |inputs| - 1;
      RepeatedAmount(u, inputs[..n])
      + (if inputs[n].pointer in (set i | i in inputs[..n] :: i.pointer) then u[inputs[n].pointer].amount else 0)
  }

  /** Listing an input twice counts its amount twice, but the ledger loses it once. */
  lemma {:induction false} RepeatedInputs(u: map<Pointer, Output>, tx: Tx, pick: Output -> bool)
    requires forall i :: i in tx.inputs ==> i.pointer in u && pick(u[i.pointer])
    ensures InputsTotal(u, tx.inputs, pick) == Total(Consumed(u, tx), pick) + RepeatedAmount(u, tx.inputs)
    decreases |tx.inputs|
  {
    if tx.inputs == [] {
      assert Amounts(Consumed(u, tx), pick) == map[];
    } else {
      var n := |tx.inputs| - 1;
      var less := Tx(tx.hash, tx.inputs[..n], tx.outputs);
      assert tx.inputs[n] in tx.inputs;
      PeelPointers(tx, n);
      RepeatedInputs(u, less, pick);
      PeelConsumed(u, tx, less, tx.inputs[n].pointer, pick);
    }
  }

  lemma {:induction false} PeelPointers(tx: Tx, n: nat)
    requires n + 1 == |tx.inputs|
    ensures Pointers(tx) == Pointers(Tx(tx.hash, tx.inputs[..n], tx.outputs)) + {tx.inputs[n].pointer}
  {
    assert tx.inputs == tx.inputs[..n] + [tx.inputs[n]];
  }

  lemma {:induction false} PeelConsumed(u: map<Pointer, Output>, tx: Tx, less: Tx, p: Pointer, pick: Output -> bool)
    requires Pointers(tx) == Pointers(less) + {p} && p in u && pick(u[p])
    ensures Total(Consumed(u, tx), pick)
         == Total(Consumed(u, less), pick) + (if p in Pointers(less) then 0 else u[p].amount)
  {
    if p in Pointers(less) {
      assert Consumed(u, tx) == Consumed(u, less);
    } else {
      assert Consumed(u, tx) == Consumed(u, less)[p := u[p]];
      TotalInsert(Consumed(u, less), p, u[p], pick);
    }
  }

  /** The fuel of the cursors whose pointer was listed before. */
  function RepeatedFuel(cs: seq<BranchCursor>): int {
    if cs == [] then 0
    else
      var n := |cs| - 1;
      RepeatedFuel(cs[..n]) + (if exists i :: 0 <= i < n && cs[i].pointer == cs[n].pointer then cs[n].fuel else 0)
  }

  lemma {:induction false} RepeatedSigned(commits: seq<Tx>, cs: seq<BranchCursor>, sign: Pointer -> string)
    requires AllLive(commits, cs)
    ensures (forall i :: i in SignedInputs(cs, sign) ==> i.pointer in Unspent(commits))
    ensures RepeatedAmount(Unspent(commits), SignedInputs(cs, sign)) == RepeatedFuel(cs)
    decreases |cs|
  {
    var inputs := SignedInputs(cs, sign);
    forall i | i in inputs ensures i.pointer in Unspent(commits) {
      var k :| 0 <= k < |inputs| && inputs[k] == i;
      assert Live(commits, cs[k]);
    }
    if cs != [] {
      var n := |cs| - 1;
      assert cs == cs[..n] + [cs[n]] && Live(commits, cs[n]);
      assert inputs[..n] == SignedInputs(cs[..n], sign);
      RepeatedSigned(commits, cs[..n], sign);
      ListedBefore(cs[..n], sign, cs[n].pointer);
    }
  }

  lemma {:induction false} ListedBefore(cs: seq<BranchCursor>, sign: Pointer -> string, p: Pointer)
    ensures p in (set i | i in SignedInputs(cs, sign) :: i.pointer) <==> exists i :: 0 <= i < |cs| && cs[i].pointer == p
  {
    var inputs := SignedInputs(cs, sign);
    if i :| 0 <= i < |cs| && cs[i].pointer == p {
      assert inputs[i] in inputs && inputs[i].pointer == p;
    }
    if i :| i in inputs && i.pointer == p {
      var k :| 0 <= k < |inputs| && inputs[k] == i;
      assert cs[k].pointer == p;
    }
  }

  /** A cursor whose pointer was listed before carries no fuel. */
  predicate RepeatsFuelless(cs: seq<BranchCursor>) {
    forall i, j :: 0 <= i < j < |cs| && cs[i].pointer == cs[j].pointer ==> cs[j].fuel == 0
  }

  lemma {:induction false} RepeatsSnoc(cs: seq<BranchCursor>)
    requires cs != []
    ensures RepeatsFuelless(cs)
       <==> && RepeatsFuelless(cs[..|cs| - 1])
            && forall i :: 0 <= i < |cs| - 1 && cs[i].pointer == cs[|cs| - 1].pointer ==> cs[|cs| - 1].fuel == 0
  {
    var n := |cs| - 1;
    if RepeatsFuelless(cs[..n]) {
      forall i, j | 0 <= i < j < n && cs[i].pointer == cs[j].pointer ensures cs[j].fuel == 0 {
        assert cs[..n][i] == cs[i] && cs[..n][j] == cs[j];
      }
    }
  }

  /** Without negative fuel, repetitions weigh nothing exactly when every repeated cursor is fuelless. */
  lemma {:induction false} RepeatedFuelZeroIff(cs: seq<BranchCursor>)
    requires forall c :: c in cs ==> c.fuel >= 0
    ensures RepeatedFuel(cs) >= 0
    ensures RepeatedFuel(cs) == 0 <==> RepeatsFuelless(cs)
    decreases |cs|
  {
    if cs != [] {
      var n := |cs| - 1;
      assert cs[n] in cs;
      RepeatedFuelZeroIff(cs[..n]);
      RepeatsSnoc(cs);
    }
  }

  /** `collapse_and_merge`: the winner goes on with everybody's fuel; None is the ValueError. */
  function Merged(cursors: seq<BranchCursor>, winner: int, stream: string): Option<BranchCursor> {
    if 0 <= winner < |cursors| then
      Some(cursors[winner].(streamId := stream, fuel := FuelSum(cursors), tick := cursors[winner].tick + 1))
    else None
  }

  /**
   * What a merge of live cursors does to the live fuel: it mints the fuel of every repeated
   * listing, since a repeated cursor is reserved once and paid out twice. It keeps the total if
   * and only if the repetitions weigh nothing; without negative fuel, if and only if every cursor
   * listed twice carries no fuel.
   */
  lemma {:induction false} MergeConservesIff(commits: seq<Tx>, cursors: seq<BranchCursor>, winner: nat, stream: string,
                                             status: string, hash: string, sign: Pointer -> string,
                                             size: Payload -> nat)
    requires InputsKnown(commits) && AllLive(commits, cursors) && winner < |cursors|
    requires AllFit([Merged(cursors, winner, stream).value], size)
    requires Fresh(commits, TransitionTx(cursors, [Merged(cursors, winner, stream).value], status, hash, sign, size))
    ensures var tx := TransitionTx(cursors, [Merged(cursors, winner, stream).value], status, hash, sign, size);
            && LiveFuel(commits + [tx]) == LiveFuel(commits) + RepeatedFuel(cursors)
            && ((forall c :: c in cursors ==> c.fuel >= 0) ==>
                  (LiveFuel(commits + [tx]) == LiveFuel(commits) <==> RepeatsFuelless(cursors)))
  {
    var next := [Merged(cursors, winner, stream).value];
    var tx := TransitionTx(cursors, next, status, hash, sign, size);
    LiveFunded(commits, cursors, tx, sign);
    SealedTotal(commits, tx, Anchors());
    SpentInputsTotal(commits, cursors, sign);
    AnchorOutputsTotal(next, status, size);
    assert next[..0] == [] && FuelSum(next) == FuelSum(cursors);
    RepeatedSigned(commits, cursors, sign);
    forall i | i in tx.inputs ensures Anchors()(Unspent(commits)[i.pointer]) {
      var k :| 0 <= k < |tx.inputs| && tx.inputs[k] == i;
      assert Live(commits, cursors[k]) && cursors[k] in cursors;
    }
    RepeatedInputs(Unspent(commits), tx, Anchors());
    if forall c :: c in cursors ==> c.fuel >= 0 { RepeatedFuelZeroIff(cursors); }
  }

  const ROOT := BranchCursor("s", Pointer("genesis", 0), "branch:x", "n", 10, "o", map[], [], 1)

  function AnySize(): Payload -> nat {
    (p: Payload) => 0
  }

  function AnySign(): Pointer -> string {
    (p: Pointer) => "sig"
  }

  /** The genesis commit of a cursor. */
  function GenesisTx(c: BranchCursor): Tx {
    TransitionTx([], [c], "GENESIS", c.pointer.txHash, AnySign(), AnySize())
  }

  function SelfMergeTx(c: BranchCursor, hash: string): Tx {
    TransitionTx([c, c], [Merged([c, c], 0, c.streamId).value], "MERGED", hash, AnySign(), AnySize())
  }

  lemma EmptyLedger()
    ensures LiveFuel([]) == 0 && InputsKnown([]) && AllProduced([]) == map[]
  {
    assert Amounts(Unspent([]), Anchors()) == map[];
  }

  /** On a ledger that holds nothing but a genesis commit, exactly its cursor is live. */
  lemma {:induction false} GenesisLive(c: BranchCursor)
    requires c.pointer.index == 0
    ensures var commits := [GenesisTx(c)];
            InputsKnown(commits) && LiveFuel(commits) == c.fuel && Live(commits, c)
            && AllProduced(commits).Keys == {c.pointer}
  {
    var tx := GenesisTx(c);
    GenesisProduces(c);
    GenesisFuel(c);
    assert [] + [tx] == [tx];
    Snoc([], tx);
    SealedUnspent([], tx);
    assert Produced(tx)[c.pointer] == tx.outputs[0];
  }

  lemma {:induction false} GenesisProduces(c: BranchCursor)
    requires c.pointer.index == 0
    ensures Pointers(GenesisTx(c)) == {} && Produced(GenesisTx(c)).Keys == {c.pointer}
  {
    var tx := GenesisTx(c);
    assert |tx.outputs| == 1 && OutputPointers(tx) == {Pointer(tx.hash, 0)};
  }

  lemma {:induction false} GenesisFuel(c: BranchCursor)
    ensures LiveFuel([] + [GenesisTx(c)]) == c.fuel
  {
    var none: seq<BranchCursor> := [];
    EmptyLedger();
    FuelSumOne(c);
    assert FuelSum(none) == 0;
    TransitionFuel([], none, [c], "GENESIS", c.pointer.txHash, AnySign(), AnySize());
  }

  lemma {:induction false} ListedTwice(c: BranchCursor)
    ensures RepeatedFuel([c, c]) == c.fuel
  {
    var twice := [c, c];
    assert twice[..1] == [c] && [c][..0] == [];
    assert twice[0].pointer == twice[1].pointer;
    assert RepeatedFuel([c]) == 0;
  }

  /** Merging a live cursor with itself mints its fuel once more. */
  lemma {:induction false} SelfMergeMints(c: BranchCursor, hash: string)
    requires c.pointer.index == 0 && c.pointer.txHash != hash
    ensures LiveFuel([GenesisTx(c)]) == c.fuel && LiveFuel([GenesisTx(c)] + [SelfMergeTx(c, hash)]) == 2 * c.fuel
  {
    GenesisLive(c);
    ListedTwice(c);
    MergeConservesIff([GenesisTx(c)], [c, c], 0, c.streamId, "MERGED", hash, AnySign(), AnySize());
  }

  /** One live cursor of 10 units merged with itself: 10 live units become 20. */
  lemma DoubledCursorMints()
    ensures LiveFuel([GenesisTx(ROOT)]) == 10 && LiveFuel([GenesisTx(ROOT)] + [SelfMergeTx(ROOT, "m")]) == 20
  {
    assert ROOT.pointer.txHash[0] != "m"[0];
    SelfMergeMints(ROOT, "m");
  }

  // --- Runs ----------------------------------------------------------------------------------------------

  /** The ledger and where fuel has gone: minted at genesis, paid as step cost, drained, or dropped. */
  datatype Runtime = Runtime(commits: seq<Tx>, minted: int, costs: int, drained: int, dropped: int)

  /** Sealed transitions; `next` cursors come with everything but their fuel decided. */
  datatype Move =
    | Spawn(draft: BranchCursor)
    | StepMove(c: BranchCursor, cost: int, draft: BranchCursor)
    | Fork(parent: BranchCursor, drafts: seq<BranchCursor>, ratios: seq<real>, cost: int)
    | Merge(cursors: seq<BranchCursor>, winner: int, stream: string)
    | Fallback(c: BranchCursor, draft: BranchCursor, exhausted: bool)

  function Spends(m: Move): seq<BranchCursor> {
    match m
    case Spawn(_) => []
    case StepMove(c, _, _) => [c]
    case Fork(p, _, _, _) => [p]
    case Merge(cs, _, _) => cs
    case Fallback(c, _, _) => [c]
  }

  /** What replaces `c` on the given stream: the draft says where it goes, the owner and the tick follow from `c`. */
  function Heir(c: BranchCursor, draft: BranchCursor, stream: string, fuel: int): BranchCursor {
    draft.(streamId := stream, owner := c.owner, tick := c.tick + 1, fuel := fuel)
  }

  /** The children of a fork on their own streams, one per draft and share as far as both go. */
  function WithShares(p: BranchCursor, drafts: seq<BranchCursor>, shares: seq<int>): (r: seq<BranchCursor>)
    ensures |r| == if |drafts| < |shares| then |drafts| else |shares|
    ensures forall i :: 0 <= i < |r| ==> r[i] == Heir(p, drafts[i], ChildId(p.streamId, i), shares[i])
  {
    var n := if |drafts| < |shares| then |drafts| else |shares|;
    seq(n, i requires 0 <= i < n => Heir(p, drafts[i], ChildId(p.streamId, i), shares[i]))
  }

  /**
   * What the operation creates; None where it raises or does nothing: a step of a terminated
   * cursor, exhausted fuel, fewer than two branch targets, unusable ratios, an invalid winner.
   */
  function Creates(m: Move): Option<seq<BranchCursor>> {
    match m
    case Spawn(d) => Some([d])
    case StepMove(c, cost, d) =>
      if IsTerminated(c) || c.fuel < cost then None else Some([Heir(c, d, c.streamId, c.fuel - cost)])
    case Fork(p, drafts, ratios, cost) =>
      if |drafts| < 2 || p.fuel < cost then None
      else (match SliceFuel(p.fuel - cost, |drafts|, ratios)
            case None => None
            case Some(shares) => Some(WithShares(p, drafts, shares)))
    case Merge(cs, winner, stream) =>
      (match Merged(cs, winner, stream) case None => None case Some(w) => Some([w]))
    case Fallback(c, d, exhausted) => Some([Heir(c, d, c.streamId, if exhausted then 0 else c.fuel)])
  }

  function CostOf(m: Move): int {
    match m
    case StepMove(_, cost, _) => cost
    case Fork(_, _, _, cost) => cost
    case _ => 0
  }

  function DroppedBy(m: Move): int {
    if m.Fork? && SliceFuel(m.parent.fuel - m.cost, |m.drafts|, m.ratios).Some?
    then SumInts(Dropped(SliceFuel(m.parent.fuel - m.cost, |m.drafts|, m.ratios).value, |m.drafts|))
    else 0
  }

  /** The environment of a commit: the status and hash it is given, signing, and payload sizes. */
  datatype Env = Env(status: string, hash: string, sign: Pointer -> string, size: Payload -> nat)

  ghost predicate Sealable(r: Runtime, m: Move, e: Env) {
    && Creates(m).Some? && AllFit(Creates(m).value, e.size)
    && AllLive(r.commits, Spends(m)) && DistinctCursors(Spends(m))
    && (forall p :: p in AllProduced(r.commits) ==> p.txHash != e.hash)
  }

  function TxOf(m: Move, e: Env): Tx
    requires Creates(m).Some? && AllFit(Creates(m).value, e.size)
  {
    TransitionTx(Spends(m), Creates(m).value, e.status, e.hash, e.sign, e.size)
  }

  function Perform(r: Runtime, m: Move, e: Env): Runtime
    requires Creates(m).Some? && AllFit(Creates(m).value, e.size)
  {
    Runtime(r.commits + [TxOf(m, e)],
            r.minted + (if m.Spawn? then m.draft.fuel else 0),
            r.costs + CostOf(m),
            r.drained + (if m.Fallback? && m.exhausted then m.c.fuel else 0),
            r.dropped + DroppedBy(m))
  }

  /** All fuel is accounted for. */
  ghost predicate Balanced(r: Runtime) {
    InputsKnown(r.commits) && LiveFuel(r.commits) + r.costs + r.drained + r.dropped == r.minted
  }

  lemma {:induction false} FundedSum(p: BranchCursor, drafts: seq<BranchCursor>, shares: seq<int>)
    ensures FuelSum(WithShares(p, drafts, shares))
         == SumInts(HandedOut(shares, |drafts|)[..|WithShares(p, drafts, shares)|])
  {
    FundedPrefix(p, drafts, shares, |WithShares(p, drafts, shares)|);
    assert WithShares(p, drafts, shares)[..|WithShares(p, drafts, shares)|] == WithShares(p, drafts, shares);
    assert HandedOut(shares, |drafts|)[..|WithShares(p, drafts, shares)|] == shares[..|WithShares(p, drafts, shares)|];
  }

  lemma {:induction false} FundedPrefix(p: BranchCursor, drafts: seq<BranchCursor>, shares: seq<int>, k: nat)
    requires k <= |WithShares(p, drafts, shares)|
    ensures FuelSum(WithShares(p, drafts, shares)[..k]) == SumInts(shares[..k])
    decreases k
  {
    if k > 0 {
      FundedPrefix(p, drafts, shares, k - 1);
      assert WithShares(p, drafts, shares)[..k][..k - 1] == WithShares(p, drafts, shares)[..k - 1];
      assert shares[..k][..k - 1] == shares[..k - 1];
    }
  }

  /** What an operation creates carries what it spends, minus cost, drain and dropped shares. */
  lemma {:induction false} CreatesFuel(m: Move)
    requires Creates(m).Some?
    ensures FuelSum(Creates(m).value) + CostOf(m) + DroppedBy(m)
            + (if m.Fallback? && m.exhausted then m.c.fuel else 0)
         == FuelSum(Spends(m)) + (if m.Spawn? then m.draft.fuel else 0)
  {
    match m {
      case Fork(_, _, _, _) => ForkFuel(m);
      case Spawn(d) => FuelSumOne(d);
      case StepMove(c, cost, d) =>
        FuelSumOne(c);
        FuelSumOne(Heir(c, d, c.streamId, c.fuel - cost));
      case Merge(cs, winner, stream) => FuelSumOne(Merged(cs, winner, stream).value);
      case Fallback(c, d, exhausted) =>
        FuelSumOne(c);
        FuelSumOne(Heir(c, d, c.streamId, if exhausted then 0 else c.fuel));
    }
  }

  lemma {:induction false} FuelSumOne(c: BranchCursor)
    ensures FuelSum([c]) == c.fuel && FuelSum([]) == 0
  {
    assert [c][..0] == [];
  }

  lemma {:induction false} ForkFuel(m: Move)
    requires m.Fork? && Creates(m).Some?
    ensures FuelSum(Creates(m).value) + m.cost + DroppedBy(m) == FuelSum([m.parent])
  {
    var count := |m.drafts|;
    var shares := SliceFuel(m.parent.fuel - m.cost, count, m.ratios).value;
    assert FuelSum(Creates(m).value) == SumInts(HandedOut(shares, count)) by { FundedAll(m.parent, m.drafts, shares); }
    assert SumInts(HandedOut(shares, count)) == m.parent.fuel - m.cost - SumInts(Dropped(shares, count)) by {
      HandedOutSum(m.parent.fuel - m.cost, count, m.ratios);
    }
    FuelSumOne(m.parent);
  }

  lemma {:induction false} FundedAll(p: BranchCursor, drafts: seq<BranchCursor>, shares: seq<int>)
    ensures FuelSum(WithShares(p, drafts, shares)) == SumInts(HandedOut(shares, |drafts|))
  {
    FundedSum(p, drafts, shares);
    assert HandedOut(shares, |drafts|)[..|WithShares(p, drafts, shares)|] == HandedOut(shares, |drafts|);
  }

  /** A fork keeps its fuel if and only if the ratios beyond its last target earn nothing in total. */
  lemma {:induction false} ForkConservesIff(m: Move)
    requires m.Fork? && Creates(m).Some?
    ensures FuelSum(Creates(m).value) + m.cost == m.parent.fuel
       <==> EarnedFrom(m.parent.fuel - m.cost, m.ratios, |m.drafts|) == 0
    ensures DroppedBy(m) == EarnedFrom(m.parent.fuel - m.cost, m.ratios, |m.drafts|)
  {
    ForkFuel(m);
    FuelSumOne(m.parent);
    DroppedIsEarned(m.parent.fuel - m.cost, |m.drafts|, m.ratios);
  }

  /** The parts of an operation that decide whether a cursor it creates goes below zero. */
  ghost predicate Solvent(m: Move) {
    match m
    case Spawn(d) => d.fuel >= 0
    case Fork(p, drafts, ratios, cost) => TargetsSolvent(p.fuel - cost, |drafts|, ratios)
    case _ => true
  }

  /** The children of a fork have no negative fuel if and only if its targets are solvent. */
  lemma {:induction false} ChildrenNonNegativeIff(m: Move)
    requires m.Fork? && Creates(m).Some?
    ensures (forall c :: c in Creates(m).value ==> c.fuel >= 0)
       <==> TargetsSolvent(m.parent.fuel - m.cost, |m.drafts|, m.ratios)
  {
    var total, count := m.parent.fuel - m.cost, |m.drafts|;
    var h, cs := HandedOut(SliceFuel(total, count, m.ratios).value, count), Creates(m).value;
    HandedOutNonNegativeIff(total, count, m.ratios);
    assert |cs| == |h| && forall i :: 0 <= i < |h| ==> cs[i].fuel == h[i];
    forall i | 0 <= i < |h| ensures cs[i] in cs {}
  }

  lemma {:induction false} PerformBalanced(r: Runtime, m: Move, e: Env)
    requires Balanced(r) && Sealable(r, m, e)
    ensures Balanced(Perform(r, m, e))
  {
    CreatesFuel(m);
    TransitionFuel(r.commits, Spends(m), Creates(m).value, e.status, e.hash, e.sign, e.size);
  }

  ghost predicate SealableRun(r: Runtime, moves: seq<(Move, Env)>)
    decreases |moves|
  {
    moves != [] ==>
      && Sealable(r, moves[0].0, moves[0].1)
      && SealableRun(Perform(r, moves[0].0, moves[0].1), moves[1..])
  }

  ghost function Play(r: Runtime, moves: seq<(Move, Env)>): Runtime
    requires SealableRun(r, moves)
    decreases |moves|
  {
    if moves == [] then r else Play(Perform(r, moves[0].0, moves[0].1), moves[1..])
  }

  /**
   * Conservation: over every run of sealed operations on distinct live cursors, the fuel of the
   * live anchors, the step costs, the drained fuel and the dropped shares add up to what genesis
   * minted.
   */
  lemma {:induction false} FuelConserved(r: Runtime, moves: seq<(Move, Env)>)
    requires Balanced(r) && SealableRun(r, moves)
    ensures Balanced(Play(r, moves))
    decreases |moves|
  {
    if moves != [] {
      PerformBalanced(r, moves[0].0, moves[0].1);
      FuelConserved(Perform(r, moves[0].0, moves[0].1), moves[1..]);
    }
  }

  /** A fork loses nothing when it has at most one non-negative ratio per target. */
  predicate Prudent(m: Move) {
    && (m.Spawn? ==> m.draft.fuel >= 0)
    && (m.Fork? ==> |m.ratios| <= |m.drafts| && forall i :: 0 <= i < |m.ratios| ==> m.ratios[i] >= 0.0)
  }

  ghost predicate NoDebt(commits: seq<Tx>) {
    forall p :: p in Unspent(commits) && Anchors()(Unspent(commits)[p]) ==> Unspent(commits)[p].amount >= 0
  }

  lemma {:induction false} FuelSumNonNegative(cs: seq<BranchCursor>)
    requires forall c :: c in cs ==> c.fuel >= 0
    ensures FuelSum(cs) >= 0
    decreases |cs|
  {
    if cs != [] {
      assert cs == cs[..|cs| - 1] + [cs[|cs| - 1]];
      FuelSumNonNegative(cs[..|cs| - 1]);
    }
  }

  /** Without debt, no created cursor is below zero exactly when the operation is solvent. */
  lemma {:induction false} CreatesSolventIff(commits: seq<Tx>, m: Move)
    requires NoDebt(commits) && Creates(m).Some? && AllLive(commits, Spends(m))
    ensures (forall c :: c in Creates(m).value ==> c.fuel >= 0) <==> Solvent(m)
  {
    forall c | c in Spends(m) ensures c.fuel >= 0 { assert Live(commits, c); }
    match m {
      case Fork(p, drafts, ratios, cost) => ChildrenNonNegativeIff(m);
      case Merge(cs, _, _) => FuelSumNonNegative(cs);
      case Spawn(d) => assert d in Creates(m).value;
      case StepMove(_, _, _) =>
      case Fallback(c, _, _) => assert c in Spends(m);
    }
  }

  /** The outputs of a transition: one anchor with the fuel of each next cursor. */
  lemma {:induction false} AnchorsProduced(spent: seq<BranchCursor>, next: seq<BranchCursor>, status: string,
                                           hash: string, sign: Pointer -> string, size: Payload -> nat)
    requires AllFit(next, size)
    ensures var produced := Produced(TransitionTx(spent, next, status, hash, sign, size));
            && (forall i :: 0 <= i < |next| ==> Pointer(hash, i) in produced)
            && (forall p :: p in produced ==>
                  p.index < |next| && Anchors()(produced[p]) && produced[p].amount == next[p.index].fuel)
  {
  }

  lemma {:induction false} TransitionNoDebtIff(commits: seq<Tx>, spent: seq<BranchCursor>, next: seq<BranchCursor>,
                                               status: string, hash: string, sign: Pointer -> string,
                                               size: Payload -> nat)
    requires InputsKnown(commits) && NoDebt(commits) && AllLive(commits, spent) && AllFit(next, size)
    requires Fresh(commits, TransitionTx(spent, next, status, hash, sign, size))
    ensures NoDebt(commits + [TransitionTx(spent, next, status, hash, sign, size)])
       <==> forall c :: c in next ==> c.fuel >= 0
  {
    var tx := TransitionTx(spent, next, status, hash, sign, size);
    LiveFunded(commits, spent, tx, sign);
    SealedUnspent(commits, tx);
    AnchorsProduced(spent, next, status, hash, sign, size);
    if c :| c in next && c.fuel < 0 {
      var i :| 0 <= i < |next| && next[i] == c;
      assert Pointer(hash, i) in Unspent(commits + [tx]);
    }
  }

  /** A sealed operation leaves no live anchor below zero if and only if it is solvent. */
  lemma {:induction false} PerformNoDebtIff(r: Runtime, m: Move, e: Env)
    requires InputsKnown(r.commits) && NoDebt(r.commits) && Sealable(r, m, e)
    ensures NoDebt(Perform(r, m, e).commits) <==> Solvent(m)
  {
    CreatesSolventIff(r.commits, m);
    TransitionNoDebtIff(r.commits, Spends(m), Creates(m).value, e.status, e.hash, e.sign, e.size);
  }

  ghost predicate NoDebtThroughout(r: Runtime, moves: seq<(Move, Env)>)
    requires SealableRun(r, moves)
    decreases |moves|
  {
    NoDebt(r.commits) && (moves != [] ==> NoDebtThroughout(Perform(r, moves[0].0, moves[0].1), moves[1..]))
  }

  /** Over every run: no live anchor is ever below zero if and only if every operation is solvent. */
  lemma {:induction false} NoDebtThroughoutIff(r: Runtime, moves: seq<(Move, Env)>)
    requires Balanced(r) && NoDebt(r.commits) && SealableRun(r, moves)
    ensures NoDebtThroughout(r, moves) <==> forall i :: 0 <= i < |moves| ==> Solvent(moves[i].0)
    ensures NoDebtThroughout(r, moves) ==> NoDebt(Play(r, moves).commits)
    decreases |moves|
  {
    if moves != [] {
      var s, rest := Perform(r, moves[0].0, moves[0].1), moves[1..];
      PerformBalanced(r, moves[0].0, moves[0].1);
      PerformNoDebtIff(r, moves[0].0, moves[0].1);
      if NoDebt(s.commits) {
        NoDebtThroughoutIff(s, rest);
        assert forall i :: 0 < i < |moves| ==> moves[i] == rest[i - 1];
        assert forall i :: 0 <= i < |rest| ==> rest[i] == moves[i + 1];
      }
    }
  }

  /** Prudence is a simple way to be solvent, and drops nothing. */
  lemma {:induction false} PrudentSolvent(commits: seq<Tx>, m: Move)
    requires NoDebt(commits) && Prudent(m) && Creates(m).Some? && AllLive(commits, Spends(m))
    ensures Solvent(m) && DroppedBy(m) == 0
  {
    if m.Fork? {
      assert m.parent in Spends(m) && Live(commits, m.parent);
      SharesNonNegative(m.parent.fuel - m.cost, |m.drafts|, m.ratios);
      HandedOutNonNegativeIff(m.parent.fuel - m.cost, |m.drafts|, m.ratios);
    }
  }

  /**
   * With a non-negative genesis and at most one non-negative ratio per fork target, no live
   * anchor ever goes below zero and nothing is dropped: live fuel plus costs plus drained fuel
   * is exactly the genesis fuel.
   */
  lemma {:induction false} PrudentRuns(r: Runtime, moves: seq<(Move, Env)>)
    requires Balanced(r) && NoDebt(r.commits) && SealableRun(r, moves)
    requires forall m :: m in moves ==> Prudent(m.0)
    ensures NoDebt(Play(r, moves).commits) && Play(r, moves).dropped == r.dropped
    ensures LiveFuel(Play(r, moves).commits) + Play(r, moves).costs + Play(r, moves).drained + r.dropped
            == Play(r, moves).minted
    decreases |moves|
  {
    if moves != [] {
      assert moves[0] in moves;
      PrudentSolvent(r.commits, moves[0].0);
      PerformBalanced(r, moves[0].0, moves[0].1);
      PerformNoDebtIff(r, moves[0].0, moves[0].1);
      PrudentRuns(Perform(r, moves[0].0, moves[0].1), moves[1..]);
    }
  }

  lemma EmptyRuntime()
    ensures Balanced(Runtime([], 0, 0, 0, 0)) && NoDebt([])
  {
    EmptyLedger();
  }
}
