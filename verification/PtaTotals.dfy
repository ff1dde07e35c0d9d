/**
 * What a list of commits leaves unspent, and how sealing one more transaction changes any total
 * over it. This is the truth that `AnchorOracle` recomputes by scanning every commit.
 */
module PtaTotals {
  import opened PtaLedger
  import opened MapSums

  /** Every pointer named as an input by some commit. */
  function Spent(commits: seq<Tx>): set<Pointer> {
    if commits == [] then {} else Spent(commits[..|commits| - 1]) + Pointers(commits[|commits| - 1])
  }

  /** Every output of every commit; for a repeated hash the later commit wins. */
  function AllProduced(commits: seq<Tx>): map<Pointer, Output> {
    if commits == [] then map[] else AllProduced(commits[..|commits| - 1]) + Produced(commits[|commits| - 1])
  }

  function Unspent(commits: seq<Tx>): map<Pointer, Output> {
    AllProduced(commits) - Spent(commits)
  }

  /** Selects every output. */
  function Any(): Output -> bool {
    (o: Output) => true
  }

  /** The amounts of the outputs that `pick` selects. */
  ghost function Amounts(u: map<Pointer, Output>, pick: Output -> bool): map<Pointer, int> {
    map p | p in u && pick(u[p]) :: u[p].amount
  }

  ghost function Total(u: map<Pointer, Output>, pick: Output -> bool): int {
    Sum(Amounts(u, pick))
  }

  ghost function OutputsTotal(outputs: seq<Output>, pick: Output -> bool): int {
    if outputs == [] then 0
    else OutputsTotal(outputs[..|outputs| - 1], pick)
         + (if pick(outputs[|outputs| - 1]) then outputs[|outputs| - 1].amount else 0)
  }

  /** Inputs only ever name outputs that some commit produced. */
  ghost predicate InputsKnown(commits: seq<Tx>) {
    Spent(commits) <= AllProduced(commits).Keys
  }

  /** The hash of `tx` has not been used. */
  ghost predicate Fresh(commits: seq<Tx>, tx: Tx) {
    forall p :: p in AllProduced(commits) ==> p.txHash != tx.hash
  }

  ghost predicate Funded(commits: seq<Tx>, tx: Tx) {
    Pointers(tx) <= Unspent(commits).Keys
  }

  lemma Snoc(commits: seq<Tx>, tx: Tx)
    ensures Spent(commits + [tx]) == Spent(commits) + Pointers(tx)
    ensures AllProduced(commits + [tx]) == AllProduced(commits) + Produced(tx)
  {
    assert (commits + [tx])[..|commits|] == commits;
  }

  /** Sealing removes exactly the inputs and adds exactly the outputs. */
  lemma SealedUnspent(commits: seq<Tx>, tx: Tx)
    requires InputsKnown(commits) && Fresh(commits, tx) && Funded(commits, tx)
    ensures InputsKnown(commits + [tx])
    ensures Unspent(commits + [tx]) == (Unspent(commits) - Pointers(tx)) + Produced(tx)
    ensures Unspent(commits).Keys !! Produced(tx).Keys
  {
    Snoc(commits, tx);
    var u, v := Unspent(commits + [tx]), (Unspent(commits) - Pointers(tx)) + Produced(tx);
    forall p | p in Produced(tx) ensures p !in AllProduced(commits) {}
    assert u.Keys == v.Keys;
    assert forall p :: p in u ==> u[p] == v[p];
  }

  // --- Totals ------------------------------------------------------------------------------

  lemma TotalUnion(a: map<Pointer, Output>, b: map<Pointer, Output>, pick: Output -> bool)
    requires a.Keys !! b.Keys
    ensures Total(a + b, pick) == Total(a, pick) + Total(b, pick)
  {
    var x, y := Amounts(a, pick), Amounts(b, pick);
    assert Amounts(a + b, pick) == x + y;
    SumUnion(x, y);
  }

  lemma TotalSplit(u: map<Pointer, Output>, keys: set<Pointer>, pick: Output -> bool)
    ensures Total(u, pick) == Total(u - keys, pick) + Total(u - (u.Keys - keys), pick)
  {
    var a, b := u - keys, u - (u.Keys - keys);
    assert u == a + b;
    TotalUnion(a, b, pick);
  }

  lemma TotalInsert(u: map<Pointer, Output>, p: Pointer, o: Output, pick: Output -> bool)
    requires p !in u
    ensures Total(u[p := o], pick) == Total(u, pick) + (if pick(o) then o.amount else 0)
  {
    var all, some := Amounts(u[p := o], pick), Amounts(u, pick);
    if pick(o) {
      assert all == some[p := o.amount];
      SumInsert(some, p, o.amount);
    } else {
      assert all == some;
    }
  }

  lemma ProducedPeel(tx: Tx)
    requires tx.outputs != []
    ensures var n := |tx.outputs| - 1;
            var less := Tx(tx.hash, tx.inputs, tx.outputs[..n]);
            && Pointer(tx.hash, n) !in Produced(less)
            && Produced(tx) == Produced(less)[Pointer(tx.hash, n) := tx.outputs[n]]
  {
    var n := |tx.outputs| - 1;
    var less := Tx(tx.hash, tx.inputs, tx.outputs[..n]);
    var a, b := Produced(tx), Produced(less)[Pointer(tx.hash, n) := tx.outputs[n]];
    forall p ensures p in a <==> p in b {
      if p in a { assert p == Pointer(tx.hash, p.index); }
    }
    assert a.Keys == b.Keys;
    assert forall p :: p in a ==> a[p] == b[p];
  }

  lemma {:induction false} ProducedTotal(tx: Tx, pick: Output -> bool)
    ensures Total(Produced(tx), pick) == OutputsTotal(tx.outputs, pick)
    decreases |tx.outputs|
  {
    if tx.outputs == [] {
      assert Amounts(Produced(tx), pick) == map[];
    } else {
      var n := |tx.outputs| - 1;
      var less := Tx(tx.hash, tx.inputs, tx.outputs[..n]);
      ProducedPeel(tx);
      ProducedTotal(less, pick);
      TotalInsert(Produced(less), Pointer(tx.hash, n), tx.outputs[n], pick);
    }
  }

  /** The part of `u` that `tx` consumes. */
  function Consumed(u: map<Pointer, Output>, tx: Tx): map<Pointer, Output> {
    u - (u.Keys - Pointers(tx))
  }

  /** Sealing changes every total by exactly outputs minus inputs. */
  lemma SealedTotal(commits: seq<Tx>, tx: Tx, pick: Output -> bool)
    requires InputsKnown(commits) && Fresh(commits, tx) && Funded(commits, tx)
    ensures Total(Unspent(commits + [tx]), pick)
         == Total(Unspent(commits), pick) - Total(Consumed(Unspent(commits), tx), pick) + OutputsTotal(tx.outputs, pick)
  {
    SealedUnspent(commits, tx);
    var u := Unspent(commits);
    TotalSplit(u, Pointers(tx), pick);
    TotalUnion(u - Pointers(tx), Produced(tx), pick);
    ProducedTotal(tx, pick);
  }

  /** What a list of spent outputs adds up to. */
  ghost function InputsTotal(u: map<Pointer, Output>, inputs: seq<Input>, pick: Output -> bool): int {
    if inputs == [] then 0
    else
      var p := inputs[|inputs| - 1].pointer;
      InputsTotal(u, inputs[..|inputs| - 1], pick) + (if p in u && pick(u[p]) then u[p].amount else 0)
  }

  lemma ConsumedPeel(u: map<Pointer, Output>, tx: Tx)
    requires tx.inputs != [] && DistinctPointers(tx.inputs) && Pointers(tx) <= u.Keys
    ensures var n := |tx.inputs| - 1;
            var less, p := Tx(tx.hash, tx.inputs[..n], tx.outputs), tx.inputs[n].pointer;
            && Pointers(less) <= u.Keys && p in u && p !in Consumed(u, less)
            && Consumed(u, tx) == Consumed(u, less)[p := u[p]]
  {
    var n := |tx.inputs| - 1;
    var less, last := Tx(tx.hash, tx.inputs[..n], tx.outputs), tx.inputs[n];
    assert tx.inputs == less.inputs + [last];
    assert Pointers(tx) == Pointers(less) + {last.pointer};
    assert last.pointer !in Pointers(less);
  }

  /** For distinct inputs, what the ledger loses is what the transaction lists. */
  lemma {:induction false} ConsumedTotal(u: map<Pointer, Output>, tx: Tx, pick: Output -> bool)
    requires DistinctPointers(tx.inputs) && Pointers(tx) <= u.Keys
    ensures Total(Consumed(u, tx), pick) == InputsTotal(u, tx.inputs, pick)
    decreases |tx.inputs|
  {
    if tx.inputs == [] {
      assert Amounts(Consumed(u, tx), pick) == map[];
    } else {
      var n := |tx.inputs| - 1;
      var less, p := Tx(tx.hash, tx.inputs[..n], tx.outputs), tx.inputs[n].pointer;
      ConsumedPeel(u, tx);
      ConsumedTotal(u, less, pick);
      TotalInsert(Consumed(u, less), p, u[p], pick);
    }
  }
}
