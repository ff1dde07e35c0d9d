/**
 * The oracle's full scan (state/anchor/oracle.py) and the two cached views of the adapter,
 * `get_balance` and `get_available_inputs` (arch/bound/adapter/pta.py).
 */
module PtaBalance {
  import opened PtaLedger
  import opened PtaTotals

  function Commits(s: State): seq<Tx> {
    s.prior + s.sealed
  }

  /** Selects the outputs of one owner in one asset. */
  function Of(owner: string, asset: string): Output -> bool {
    (o: Output) => o.owner == owner && o.asset == asset
  }

  function Filter(u: map<Pointer, Output>, pick: Output -> bool): map<Pointer, Output> {
    map p | p in u && pick(u[p]) :: u[p]
  }

  // --- The full scan -------------------------------------------------------------------------

  /** The `candidate_outputs` dictionary after scanning `commits`. */
  function Candidates(commits: seq<Tx>, pick: Output -> bool): map<Pointer, Output> {
    if commits == [] then map[]
    else Candidates(commits[..|commits| - 1], pick) + Filter(Produced(commits[|commits| - 1]), pick)
  }

  /** The unspent outputs the oracle reports. */
  function Confirmed(commits: seq<Tx>, pick: Output -> bool): map<Pointer, Output> {
    Candidates(commits, pick) - Spent(commits)
  }

  ghost function Worth(m: map<Pointer, Output>): int {
    Total(m, Any())
  }

  /** `items` lists the entries of `m`, each once, in some order. */
  ghost predicate Lists(items: seq<(Pointer, Output)>, m: map<Pointer, Output>) {
    && (forall i, j :: 0 <= i < j < |items| ==> items[i].0 != items[j].0)
    && (forall i :: 0 <= i < |items| ==> items[i].0 in m && m[items[i].0] == items[i].1)
    && (forall p :: p in m ==> exists i :: 0 <= i < |items| && items[i].0 == p)
  }

  function ItemsTotal(items: seq<(Pointer, Output)>): int {
    if items == [] then 0 else ItemsTotal(items[..|items| - 1]) + items[|items| - 1].1.amount
  }

  /** Adding up a listing gives the worth of what it lists, whatever the order. */
  lemma {:induction false} ListsWorth(items: seq<(Pointer, Output)>, m: map<Pointer, Output>)
    requires Lists(items, m)
    ensures ItemsTotal(items) == Worth(m)
    decreases |items|
  {
    if items == [] {
      assert m == map[];
      assert Amounts(m, Any()) == map[];
    } else {
      var n := |items| - 1;
      var p, o := items[n].0, items[n].1;
      var less := m - {p};
      ListsPeel(items, m);
      ListsWorth(items[..n], less);
      TotalInsert(less, p, o, Any());
      assert m == less[p := o];
    }
  }

  lemma ListsPeel(items: seq<(Pointer, Output)>, m: map<Pointer, Output>)
    requires Lists(items, m) && items != []
    ensures Lists(items[..|items| - 1], m - {items[|items| - 1].0})
  {
    var n := |items| - 1;
    var less := m - {items[n].0};
    forall p | p in less ensures exists i :: 0 <= i < n && items[..n][i].0 == p {
      var i :| 0 <= i < |items| && items[i].0 == p;
      assert items[..n][i].0 == p;
    }
  }

  lemma ListsAppend(items: seq<(Pointer, Output)>, m: map<Pointer, Output>, p: Pointer, o: Output)
    requires Lists(items, m) && p !in m
    ensures Lists(items + [(p, o)], m[p := o])
  {
    var more, grown := items + [(p, o)], m[p := o];
    forall q | q in grown ensures exists i :: 0 <= i < |more| && more[i].0 == q {
      if q == p { assert more[|items|].0 == p; }
      else { var i :| 0 <= i < |items| && items[i].0 == q; assert more[i].0 == q; }
    }
  }

  /** Transactions that produce the same pointer agree on the output: the hash covers the outputs. */
  ghost predicate Consistent(commits: seq<Tx>) {
    forall i, j, p |
      && 0 <= i < |commits| && 0 <= j < |commits|
      && p in Produced(commits[i]) && p in Produced(commits[j]) :: Produced(commits[i])[p] == Produced(commits[j])[p]
  }

  lemma {:induction false} ProducedSomewhere(commits: seq<Tx>, p: Pointer)
    ensures p in AllProduced(commits) ==>
      exists i :: 0 <= i < |commits| && p in Produced(commits[i]) && Produced(commits[i])[p] == AllProduced(commits)[p]
    ensures forall i :: 0 <= i < |commits| && p in Produced(commits[i]) ==> p in AllProduced(commits)
    decreases |commits|
  {
    if commits != [] {
      var n := |commits| - 1;
      ProducedSomewhere(commits[..n], p);
      if p in AllProduced(commits) && p !in Produced(commits[n]) {
        var i :| 0 <= i < n && p in Produced(commits[..n][i]) &&
          Produced(commits[..n][i])[p] == AllProduced(commits[..n])[p];
        assert commits[..n][i] == commits[i];
      }
      forall i | 0 <= i < |commits| && p in Produced(commits[i]) ensures p in AllProduced(commits) {
        if i < n { assert commits[..n][i] == commits[i]; }
      }
    }
  }

  /** On consistent commits the scan finds exactly the selected outputs. */
  lemma {:induction false} CandidatesExact(commits: seq<Tx>, pick: Output -> bool)
    requires Consistent(commits)
    ensures Candidates(commits, pick) == Filter(AllProduced(commits), pick)
    decreases |commits|
  {
    if commits != [] {
      var n := |commits| - 1;
      var init, last := commits[..n], commits[n];
      forall i, j, p | 0 <= i < n && 0 <= j < n && p in Produced(init[i]) && p in Produced(init[j])
        ensures Produced(init[i])[p] == Produced(init[j])[p]
      { assert init[i] == commits[i] && init[j] == commits[j]; }
      CandidatesExact(init, pick);
      forall p | p in AllProduced(init) && p in Produced(last) ensures AllProduced(init)[p] == Produced(last)[p] {
        ProducedSomewhere(init, p);
        var i :| 0 <= i < n && p in Produced(init[i]) && Produced(init[i])[p] == AllProduced(init)[p];
        assert init[i] == commits[i];
      }
      FilterUnion(AllProduced(init), Produced(last), pick);
    }
  }

  lemma FilterUnion(a: map<Pointer, Output>, b: map<Pointer, Output>, pick: Output -> bool)
    requires forall p :: p in a && p in b ==> a[p] == b[p]
    ensures Filter(a + b, pick) == Filter(a, pick) + Filter(b, pick)
  {
  }

  lemma ConfirmedExact(commits: seq<Tx>, pick: Output -> bool)
    requires Consistent(commits)
    ensures Confirmed(commits, pick) == Filter(Unspent(commits), pick)
  {
    CandidatesExact(commits, pick);
  }

  // --- The adapter's views -------------------------------------------------------------------

  /** Pool entries the oracle does not confirm. */
  function Speculative(s: State, pick: Output -> bool): map<Pointer, Output> {
    Filter(s.pool, pick) - Confirmed(Commits(s), pick).Keys
  }

  /** What the adapter offers: confirmed outputs that nobody reserved, and its own unconfirmed ones. */
  function Available(s: State, pick: Output -> bool): map<Pointer, Output> {
    (Confirmed(Commits(s), pick) - s.mempool) + Speculative(s, pick)
  }

  // --- Agreement with the oracle ---------------------------------------------------------------

  ghost predicate PoolBacked(s: State) {
    forall p :: p in s.pool ==> p in Unspent(Commits(s)) && Unspent(Commits(s))[p] == s.pool[p]
  }

  ghost predicate PendingBacked(s: State) {
    && (forall id :: id in s.inflight ==> Fresh(Commits(s), s.inflight[id]) && Funded(Commits(s), s.inflight[id]))
    && (forall i, j :: i in s.inflight && j in s.inflight && s.inflight[i].hash == s.inflight[j].hash ==> i == j)
  }

  /** The states reached when callers use fresh hashes and name existing unspent outputs. */
  ghost predicate Disciplined(s: State) {
    && Exclusive(s) && Consistent(Commits(s)) && InputsKnown(Commits(s))
    && PoolBacked(s) && PendingBacked(s)
  }

  ghost predicate Orderly(s: State, e: Event) {
    e.Begin? ==>
      && Signed(e.tx) && Fresh(Commits(s), e.tx) && Funded(Commits(s), e.tx)
      && forall id :: id in s.inflight ==> s.inflight[id].hash != e.tx.hash
  }

  lemma SealConsistent(commits: seq<Tx>, tx: Tx)
    requires Consistent(commits) && Fresh(commits, tx)
    ensures Consistent(commits + [tx])
  {
    var more := commits + [tx];
    forall i, j, p | 0 <= i < |more| && 0 <= j < |more| && p in Produced(more[i]) && p in Produced(more[j])
      ensures Produced(more[i])[p] == Produced(more[j])[p]
    {
      ProducedSomewhere(commits, p);
      assert p in Produced(tx) ==> p.txHash == tx.hash;
    }
  }

  lemma SealKeepsPending(s: State, id: nat, other: nat)
    requires Disciplined(s) && id in s.inflight && other in s.inflight && other != id
    ensures Fresh(Commits(s) + [s.inflight[id]], s.inflight[other])
    ensures Funded(Commits(s) + [s.inflight[id]], s.inflight[other])
  {
    var c, tx, ux := Commits(s), s.inflight[id], s.inflight[other];
    SealedUnspent(c, tx);
    Snoc(c, tx);
    forall p | p in AllProduced(c + [tx]) ensures p.txHash != ux.hash {
      if p in Produced(tx) { assert p.txHash == tx.hash; }
    }
    forall p | p in Pointers(ux) ensures p in Unspent(c + [tx]) {
      assert ReservedBy(s, other, p) && !ReservedBy(s, id, p);
    }
  }

  lemma SealedCommits(s: State, id: nat, valid: Input -> bool)
    requires id in s.inflight
    ensures Commits(Step(s, Sealed(id), valid)) == Commits(s) + [s.inflight[id]]
  {
  }

  lemma SealDisciplined(s: State, id: nat, valid: Input -> bool)
    requires Disciplined(s) && id in s.inflight
    ensures Disciplined(Step(s, Sealed(id), valid))
  {
    var t, c, tx := Step(s, Sealed(id), valid), Commits(s), s.inflight[id];
    SealedCommits(s, id, valid);
    SealExclusive(s, id, valid);
    SealConsistent(c, tx);
    SealedUnspent(c, tx);
    forall other | other in t.inflight
      ensures Fresh(Commits(t), t.inflight[other]) && Funded(Commits(t), t.inflight[other]) {
      SealKeepsPending(s, id, other);
    }
  }

  lemma BeginDisciplined(s: State, id: nat, tx: Tx, valid: Input -> bool)
    requires Disciplined(s) && Orderly(s, Begin(id, tx))
    ensures Disciplined(Step(s, Begin(id, tx), valid))
  {
    StepExclusive(s, Begin(id, tx), valid);
    assert Commits(Step(s, Begin(id, tx), valid)) == Commits(s);
  }

  lemma ReleaseDisciplined(s: State, id: nat)
    requires Disciplined(s)
    ensures Disciplined(Release(s, id))
  {
    if id in s.inflight { ReleaseExclusive(s, id); }
    assert Commits(Release(s, id)) == Commits(s);
  }

  lemma StepDisciplined(s: State, e: Event, valid: Input -> bool)
    requires Disciplined(s) && Orderly(s, e)
    ensures Disciplined(Step(s, e, valid))
  {
    match e
    case Begin(id, tx) => BeginDisciplined(s, id, tx, valid);
    case Sealed(id) => if id in s.inflight { SealDisciplined(s, id, valid); }
    case Unsealed(id) => ReleaseDisciplined(s, id);
    case Raised(id) => ReleaseDisciplined(s, id);
    case Evict(_) =>
      StepExclusive(s, e, valid);
      assert Commits(Step(s, e, valid)) == Commits(s);
  }

  /** Every event of the run is orderly in the state it meets. */
  ghost predicate OrderlyRun(s: State, events: seq<Event>, valid: Input -> bool)
    decreases |events|
  {
    events == [] || (Orderly(s, events[0]) && OrderlyRun(Step(s, events[0], valid), events[1..], valid))
  }

  lemma {:induction false} RunDisciplined(s: State, events: seq<Event>, valid: Input -> bool)
    requires Disciplined(s) && OrderlyRun(s, events, valid)
    ensures Disciplined(Run(s, events, valid))
    decreases |events|
  {
    if events != [] {
      StepDisciplined(s, events[0], valid);
      RunDisciplined(Step(s, events[0], valid), events[1..], valid);
    }
  }

  lemma FilterMinus(u: map<Pointer, Output>, keys: set<Pointer>, pick: Output -> bool)
    ensures Filter(u, pick) - keys == Filter(u - keys, pick)
  {
  }

  lemma NothingSpeculative(s: State, pick: Output -> bool)
    requires PoolBacked(s) && Consistent(Commits(s))
    ensures Speculative(s, pick) == map[]
  {
    ConfirmedExact(Commits(s), pick);
    forall p | p in Filter(s.pool, pick) ensures p in Confirmed(Commits(s), pick) {}
  }

  /** The cache adds nothing: what is offered is what the ledger holds unspent and unreserved. */
  lemma AvailableExact(s: State, pick: Output -> bool)
    requires Disciplined(s)
    ensures Available(s, pick) == Filter(Unspent(Commits(s)) - s.mempool, pick)
  {
    ConfirmedExact(Commits(s), pick);
    NothingSpeculative(s, pick);
    FilterMinus(Unspent(Commits(s)), s.mempool, pick);
  }

  lemma {:induction false} SpentContains(prior: seq<Tx>, sealed: seq<Tx>, k: nat)
    requires k < |sealed|
    ensures Pointers(sealed[k]) <= Spent(prior + sealed)
    decreases |sealed|
  {
    var n := |sealed| - 1;
    assert prior + sealed == (prior + sealed[..n]) + [sealed[n]];
    Snoc(prior + sealed[..n], sealed[n]);
    if k < n { SpentContains(prior, sealed[..n], k); }
  }

  /**
   * Refinement of the full scan by the cache: along every orderly run of a process, whenever no
   * call is pending, the adapter's balance is the oracle's, for every owner and asset.
   */
  lemma QuiescentBalance(s: State, events: seq<Event>, valid: Input -> bool, owner: string, asset: string)
    requires Disciplined(s) && OrderlyRun(s, events, valid)
    requires Run(s, events, valid).inflight == map[]
    ensures var t := Run(s, events, valid);
            && Worth(Available(t, Of(owner, asset))) == Worth(Confirmed(Commits(t), Of(owner, asset)))
            && Available(t, Of(owner, asset)) == Filter(Unspent(Commits(t)), Of(owner, asset))
  {
    RunDisciplined(s, events, valid);
    var t, pick := Run(s, events, valid), Of(owner, asset);
    AvailableExact(t, pick);
    ConfirmedExact(Commits(t), pick);
    forall p | p in t.mempool ensures p !in Unspent(Commits(t)) {
      assert !(exists i :: ReservedBy(t, i, p));
      var k :| SpentAt(t, k, p);
      SpentContains(t.prior, t.sealed, k);
    }
    assert Unspent(Commits(t)) - t.mempool == Unspent(Commits(t));
  }

  /** A process that starts on a consistent ledger starts disciplined. */
  lemma FreshProcessDisciplined(prior: seq<Tx>)
    requires Consistent(prior) && InputsKnown(prior)
    ensures Disciplined(State(prior, [], map[], {}, map[]))
  {
    assert prior + [] == prior;
  }
}
