/**
 * `AnchorOracle.get_unspent_outputs` and the class `PtaAdapter` in their own imperative form,
 * proved against the step machine of `PtaLedger` and the views of `PtaBalance`.
 */
module PtaAdapter {
  import opened Wrappers
  import opened PtaLedger
  import opened PtaTotals
  import opened PtaBalance

  // --- The oracle's scan -----------------------------------------------------------------------

  /** `keys` is the insertion order of the dictionary `m`. */
  ghost predicate Indexes(keys: seq<Pointer>, m: map<Pointer, Output>) {
    && (forall i, j :: 0 <= i < j < |keys| ==> keys[i] != keys[j])
    && (forall p :: p in keys <==> p in m)
  }

  lemma FilterInsert(u: map<Pointer, Output>, p: Pointer, o: Output, pick: Output -> bool)
    requires p !in u
    ensures Filter(u[p := o], pick) == if pick(o) then Filter(u, pick)[p := o] else Filter(u, pick)
  {
  }

  lemma UnionInsert(a: map<Pointer, Output>, b: map<Pointer, Output>, p: Pointer, o: Output)
    ensures a + b[p := o] == (a + b)[p := o]
  {
  }

  /** The selected outputs of one commit enter the candidate dictionary. */
  method CollectOutputs(tx: Tx, pick: Output -> bool, keys0: seq<Pointer>, found0: map<Pointer, Output>)
    returns (keys: seq<Pointer>, found: map<Pointer, Output>)
    requires Indexes(keys0, found0)
    ensures Indexes(keys, found)
    ensures found == found0 + Filter(Produced(tx), pick)
  {
    keys, found := keys0, found0;
    assert Filter(Produced(Tx(tx.hash, tx.inputs, tx.outputs[..0])), pick) == map[];
    for i := 0 to |tx.outputs|
      invariant Indexes(keys, found)
      invariant found == found0 + Filter(Produced(Tx(tx.hash, tx.inputs, tx.outputs[..i])), pick)
    {
      ghost var less, more := Tx(tx.hash, tx.inputs, tx.outputs[..i]), Tx(tx.hash, tx.inputs, tx.outputs[..i + 1]);
      var p, o := Pointer(tx.hash, i), tx.outputs[i];
      assert more.outputs[..i] == less.outputs;
      ProducedPeel(more);
      FilterInsert(Produced(less), p, o, pick);
      if pick(o) {
        UnionInsert(found0, Filter(Produced(less), pick), p, o);
        if p !in found { keys := keys + [p]; }
        found := found[p := o];
      }
    }
    assert tx.outputs[..|tx.outputs|] == tx.outputs;
  }

  method CollectSpent(tx: Tx, spent0: set<Pointer>) returns (spent: set<Pointer>)
    ensures spent == spent0 + Pointers(tx)
  {
    spent := spent0;
    for i := 0 to |tx.inputs|
      invariant spent == spent0 + set k | k in tx.inputs[..i] :: k.pointer
    {
      assert tx.inputs[..i + 1] == tx.inputs[..i] + [tx.inputs[i]];
      spent := spent + {tx.inputs[i].pointer};
    }
    assert tx.inputs[..|tx.inputs|] == tx.inputs;
  }

  ghost function Restrict(m: map<Pointer, Output>, keys: seq<Pointer>): map<Pointer, Output> {
    map p | p in m && p in keys :: m[p]
  }

  lemma RestrictSnoc(m: map<Pointer, Output>, keys: seq<Pointer>, p: Pointer, drop: set<Pointer>)
    requires p in m && p !in keys
    ensures p !in Restrict(m, keys)
    ensures Restrict(m, keys + [p]) - drop
         == if p in drop then Restrict(m, keys) - drop else (Restrict(m, keys) - drop)[p := m[p]]
  {
    var a := Restrict(m, keys + [p]) - drop;
    var b := if p in drop then Restrict(m, keys) - drop else (Restrict(m, keys) - drop)[p := m[p]];
    assert a.Keys == b.Keys;
    assert forall q :: q in a ==> a[q] == b[q];
  }

  /** `get_unspent_outputs`: collect while scanning, then drop what some commit spends. */
  method GetUnspentOutputs(commits: seq<Tx>, owner: string, asset: string) returns (items: seq<(Pointer, Output)>)
    ensures Lists(items, Confirmed(commits, Of(owner, asset)))
  {
    var pick := Of(owner, asset);
    var spent: set<Pointer>, keys: seq<Pointer>, found: map<Pointer, Output> := {}, [], map[];
    assert commits[..0] == [];
    for c := 0 to |commits|
      invariant Indexes(keys, found)
      invariant found == Candidates(commits[..c], pick) && spent == Spent(commits[..c])
    {
      assert commits[..c + 1][..c] == commits[..c];
      spent := CollectSpent(commits[c], spent);
      keys, found := CollectOutputs(commits[c], pick, keys, found);
    }
    assert commits[..|commits|] == commits;
    items := DropSpent(keys, found, spent);
  }

  /** The final comprehension of `get_unspent_outputs`. */
  method DropSpent(keys: seq<Pointer>, found: map<Pointer, Output>, spent: set<Pointer>)
    returns (items: seq<(Pointer, Output)>)
    requires Indexes(keys, found)
    ensures Lists(items, found - spent)
  {
    items := [];
    assert Restrict(found, keys[..0]) - spent == map[];
    for i := 0 to |keys|
      invariant Lists(items, Restrict(found, keys[..i]) - spent)
    {
      var p := keys[i];
      assert keys[..i + 1] == keys[..i] + [p];
      assert p !in keys[..i];
      RestrictSnoc(found, keys[..i], p, spent);
      if p !in spent {
        ListsAppend(items, Restrict(found, keys[..i]) - spent, p, found[p]);
        items := items + [(p, found[p])];
      }
    }
    assert keys[..|keys|] == keys;
    assert Restrict(found, keys) == found;
  }

  // --- Sums of listings ------------------------------------------------------------------------

  /** The listed items that nobody reserved. */
  function FreeItems(items: seq<(Pointer, Output)>, mempool: set<Pointer>): seq<(Pointer, Output)> {
    if items == [] then []
    else
      var n := |items| - 1;
      FreeItems(items[..n], mempool) + (if items[n].0 in mempool then [] else [items[n]])
  }

  lemma MinusPeel(m: map<Pointer, Output>, p: Pointer, drop: set<Pointer>)
    requires p in m
    ensures m - drop == if p in drop then m - {p} - drop else (m - {p} - drop)[p := m[p]]
  {
  }

  lemma {:induction false} FreeItemsList(items: seq<(Pointer, Output)>, m: map<Pointer, Output>, mempool: set<Pointer>)
    requires Lists(items, m)
    ensures Lists(FreeItems(items, mempool), m - mempool)
    decreases |items|
  {
    if items == [] {
      assert m == map[];
    } else {
      var n := |items| - 1;
      var p, o := items[n].0, items[n].1;
      ListsPeel(items, m);
      FreeItemsList(items[..n], m - {p}, mempool);
      MinusPeel(m, p, mempool);
      var free := FreeItems(items[..n], mempool);
      if p in mempool {
        assert FreeItems(items, mempool) == free + [] == free;
      } else {
        ListsAppend(free, m - {p} - mempool, p, o);
        assert FreeItems(items, mempool) == free + [(p, o)];
      }
    }
  }

  function KeysOf(items: seq<(Pointer, Output)>): set<Pointer> {
    set i | i in items :: i.0
  }

  lemma KeysOfListing(items: seq<(Pointer, Output)>, m: map<Pointer, Output>)
    requires Lists(items, m)
    ensures KeysOf(items) == m.Keys
  {
    forall p | p in m ensures p in KeysOf(items) {
      var i :| 0 <= i < |items| && items[i].0 == p;
      assert items[i] in items;
    }
  }

  lemma KeysOfAppend(items: seq<(Pointer, Output)>, i: (Pointer, Output))
    ensures KeysOf(items + [i]) == KeysOf(items) + {i.0}
  {
    assert i in items + [i];
    forall k | k in items ensures k in items + [i] {}
  }

  lemma WorthUnion(a: map<Pointer, Output>, b: map<Pointer, Output>)
    requires a.Keys !! b.Keys
    ensures Worth(a + b) == Worth(a) + Worth(b)
  {
    TotalUnion(a, b, Any());
  }

  lemma ItemsTotalSnoc(items: seq<(Pointer, Output)>, i: (Pointer, Output))
    ensures ItemsTotal(items + [i]) == ItemsTotal(items) + i.1.amount
    ensures ItemsTotal(items + []) == ItemsTotal(items)
  {
    assert (items + [i])[..|items|] == items;
    assert items + [] == items;
  }

  /** The two parts both queries put together are a listing of what is available. */
  lemma AvailableParts(s: State, pick: Output -> bool, items: seq<(Pointer, Output)>,
                       kept: map<Pointer, Output>, local: seq<(Pointer, Output)>)
    requires Lists(items, Confirmed(Commits(s), pick))
    requires kept == s.pool - KeysOf(items) && Lists(local, Filter(kept, pick))
    ensures Lists(FreeItems(items, s.mempool) + local, Available(s, pick))
    ensures ItemsTotal(FreeItems(items, s.mempool)) + ItemsTotal(local) == Worth(Available(s, pick))
    ensures ItemsTotal(FreeItems(items, s.mempool) + local) == Worth(Available(s, pick))
  {
    var confirmed := Confirmed(Commits(s), pick);
    KeysOfListing(items, confirmed);
    FreeItemsList(items, confirmed, s.mempool);
    FilterMinus(s.pool, confirmed.Keys, pick);
    ListsConcat(FreeItems(items, s.mempool), confirmed - s.mempool, local, Speculative(s, pick));
    ListsWorth(FreeItems(items, s.mempool), confirmed - s.mempool);
    ListsWorth(local, Speculative(s, pick));
    ListsWorth(FreeItems(items, s.mempool) + local, Available(s, pick));
    WorthUnion(confirmed - s.mempool, Speculative(s, pick));
  }

  /** The confirmed total and the part of it that is locally reserved. */
  method ConfirmedSums(items: seq<(Pointer, Output)>, mempool: set<Pointer>) returns (oracleSum: int, spentSum: int)
    ensures oracleSum - spentSum == ItemsTotal(FreeItems(items, mempool))
    ensures oracleSum == ItemsTotal(items)
  {
    oracleSum, spentSum := 0, 0;
    for i := 0 to |items|
      invariant oracleSum - spentSum == ItemsTotal(FreeItems(items[..i], mempool))
      invariant oracleSum == ItemsTotal(items[..i])
    {
      assert items[..i + 1][..i] == items[..i];
      ItemsTotalSnoc(items[..i], items[i]);
      ItemsTotalSnoc(FreeItems(items[..i], mempool), items[i]);
      oracleSum := oracleSum + items[i].1.amount;
      if items[i].0 in mempool { spentSum := spentSum + items[i].1.amount; }
    }
    assert items[..|items|] == items;
  }

  method Unreserved(items: seq<(Pointer, Output)>, mempool: set<Pointer>) returns (free: seq<(Pointer, Output)>)
    ensures free == FreeItems(items, mempool)
  {
    free := [];
    for i := 0 to |items|
      invariant free == FreeItems(items[..i], mempool)
    {
      assert items[..i + 1][..i] == items[..i];
      if items[i].0 !in mempool { free := free + [items[i]]; }
    }
    assert items[..|items|] == items;
  }

  method AddUp(items: seq<(Pointer, Output)>) returns (sum: int)
    ensures sum == ItemsTotal(items)
  {
    sum := 0;
    for i := 0 to |items|
      invariant sum == ItemsTotal(items[..i])
    {
      assert items[..i + 1][..i] == items[..i];
      sum := sum + items[i].1.amount;
    }
    assert items[..|items|] == items;
  }

  /** The pool entries that `pick` selects, in some order. */
  method SpeculativeItems(pool: map<Pointer, Output>, pick: Output -> bool) returns (items: seq<(Pointer, Output)>)
    ensures Lists(items, Filter(pool, pick))
  {
    items := [];
    var todo := pool.Keys;
    assert Filter(pool - todo, pick) == map[];
    while todo != {}
      invariant todo <= pool.Keys
      invariant Lists(items, Filter(pool - todo, pick))
      decreases todo
    {
      var p :| p in todo;
      var rest := todo - {p};
      assert pool - rest == (pool - todo)[p := pool[p]];
      FilterInsert(pool - todo, p, pool[p], pick);
      if pick(pool[p]) {
        ListsAppend(items, Filter(pool - todo, pick), p, pool[p]);
        items := items + [(p, pool[p])];
      }
      todo := rest;
    }
    assert pool - {} == pool;
  }

  method DropInputs(pool0: map<Pointer, Output>, tx: Tx) returns (pool: map<Pointer, Output>)
    ensures pool == pool0 - Pointers(tx)
  {
    pool := pool0;
    for k := 0 to |tx.inputs|
      invariant pool == pool0 - set i | i in tx.inputs[..k] :: i.pointer
    {
      assert tx.inputs[..k + 1] == tx.inputs[..k] + [tx.inputs[k]];
      pool := pool - {tx.inputs[k].pointer};
    }
    assert tx.inputs[..|tx.inputs|] == tx.inputs;
  }

  method AddOutputs(pool0: map<Pointer, Output>, tx: Tx) returns (pool: map<Pointer, Output>)
    ensures pool == pool0 + Produced(tx)
  {
    pool := pool0;
    assert Produced(Tx(tx.hash, tx.inputs, tx.outputs[..0])) == map[];
    for k := 0 to |tx.outputs|
      invariant pool == pool0 + Produced(Tx(tx.hash, tx.inputs, tx.outputs[..k]))
    {
      ghost var less, more := Tx(tx.hash, tx.inputs, tx.outputs[..k]), Tx(tx.hash, tx.inputs, tx.outputs[..k + 1]);
      assert more.outputs[..k] == less.outputs;
      ProducedPeel(more);
      UnionInsert(pool0, Produced(less), Pointer(tx.hash, k), tx.outputs[k]);
      pool := pool[Pointer(tx.hash, k) := tx.outputs[k]];
    }
    assert tx.outputs[..|tx.outputs|] == tx.outputs;
  }

  // --- The adapter -------------------------------------------------------------------------------

  class Adapter {
    const prior: seq<Tx>
    const valid: Input -> bool            // Ed25519 verification
    var sealed: seq<Tx>
    var pool: map<Pointer, Output>        // _unfold_pool
    var mempool: set<Pointer>             // _spent_mempool
    ghost var inflight: map<nat, Tx>      // the suspended calls

    ghost function Snapshot(): State
      reads this
    {
      State(prior, sealed, pool, mempool, inflight)
    }

    constructor (prior: seq<Tx>, valid: Input -> bool)
      ensures Snapshot() == State(prior, [], map[], {}, map[]) && this.valid == valid
    {
      this.prior, this.valid := prior, valid;
      sealed, pool, mempool, inflight := [], map[], {}, map[];
    }

    /** `execute_transaction` up to the await: check every input, then reserve all of them. */
    method Reserve(ghost id: nat, tx: Tx) returns (refusal: Option<Refusal>)
      requires id !in inflight
      modifies this
      ensures Snapshot() == Step(old(Snapshot()), Begin(id, tx), valid)
      ensures refusal == Check(tx.inputs, 0, old(mempool), valid)
    {
      for k := 0 to |tx.inputs|
        invariant Snapshot() == old(Snapshot())
        invariant Check(tx.inputs, 0, mempool, valid) == Check(tx.inputs, k, mempool, valid)
      {
        if tx.inputs[k].owner != "" {
          if tx.inputs[k].pointer in mempool { return Some(DoubleSpend(tx.inputs[k].pointer)); }
          if !valid(tx.inputs[k]) { return Some(AuthFailed(k)); }
        }
      }
      for k := 0 to |tx.inputs|
        invariant pool == old(pool) && sealed == old(sealed) && inflight == old(inflight)
        invariant mempool == old(mempool) + set i | i in tx.inputs[..k] :: i.pointer
      {
        assert tx.inputs[..k + 1] == tx.inputs[..k] + [tx.inputs[k]];
        mempool := mempool + {tx.inputs[k].pointer};
      }
      assert tx.inputs[..|tx.inputs|] == tx.inputs;
      inflight := inflight[id := tx];
      refusal := None;
    }

    /** The continuation when the store returned a sealed kernel. */
    method Settle(ghost id: nat, tx: Tx)
      requires id in inflight && inflight[id] == tx
      modifies this
      ensures Snapshot() == Step(old(Snapshot()), Sealed(id), valid)
    {
      pool := DropInputs(pool, tx);
      pool := AddOutputs(pool, tx);
      sealed := sealed + [tx];
      inflight := inflight - {id};
    }

    /** The continuation when the store returned None or raised. */
    method Abandon(ghost id: nat, tx: Tx)
      requires id in inflight && inflight[id] == tx
      modifies this
      ensures Snapshot() == Release(old(Snapshot()), id)
    {
      for k := 0 to |tx.inputs|
        invariant sealed == old(sealed) && pool == old(pool) && inflight == old(inflight)
        invariant mempool == old(mempool) - set i | i in tx.inputs[..k] :: i.pointer
      {
        assert tx.inputs[..k + 1] == tx.inputs[..k] + [tx.inputs[k]];
        mempool := mempool - {tx.inputs[k].pointer};
      }
      assert tx.inputs[..|tx.inputs|] == tx.inputs;
      inflight := inflight - {id};
    }

    /** Drops the confirmed entries from the pool, as both queries do while they read the oracle. */
    method EvictConfirmed(items: seq<(Pointer, Output)>)
      modifies this
      ensures Snapshot() == Step(old(Snapshot()), Evict(KeysOf(items)), valid)
    {
      for i := 0 to |items|
        invariant sealed == old(sealed) && mempool == old(mempool) && inflight == old(inflight)
        invariant pool == old(pool) - KeysOf(items[..i])
      {
        KeysOfAppend(items[..i], items[i]);
        assert items[..i + 1] == items[..i] + [items[i]];
        pool := pool - {items[i].0};
      }
      assert items[..|items|] == items;
    }

    /** `get_balance`: confirmed minus locally spent plus locally produced. */
    method GetBalance(owner: string, asset: string) returns (balance: int)
      modifies this
      ensures balance == Worth(Available(old(Snapshot()), Of(owner, asset)))
      ensures Snapshot() == Step(old(Snapshot()), Evict(Confirmed(prior + old(sealed), Of(owner, asset)).Keys), valid)
    {
      ghost var s := Snapshot();
      var items := GetUnspentOutputs(prior + sealed, owner, asset);
      KeysOfListing(items, Confirmed(Commits(s), Of(owner, asset)));
      var oracleSum, spentSum := ConfirmedSums(items, mempool);
      EvictConfirmed(items);
      assert pool == s.pool - KeysOf(items);
      var local := SpeculativeItems(pool, Of(owner, asset));
      var producedSum := AddUp(local);
      AvailableParts(s, Of(owner, asset), items, pool, local);
      balance := oracleSum - spentSum + producedSum;
    }

    /** `get_available_inputs`: the same evictions, and a listing of what `get_balance` adds up. */
    method GetAvailableInputs(owner: string, asset: string) returns (available: seq<(Pointer, Output)>)
      modifies this
      ensures Lists(available, Available(old(Snapshot()), Of(owner, asset)))
      ensures ItemsTotal(available) == Worth(Available(old(Snapshot()), Of(owner, asset)))
      ensures Snapshot() == Step(old(Snapshot()), Evict(Confirmed(prior + old(sealed), Of(owner, asset)).Keys), valid)
    {
      ghost var s := Snapshot();
      var items := GetUnspentOutputs(prior + sealed, owner, asset);
      KeysOfListing(items, Confirmed(Commits(s), Of(owner, asset)));
      available := Unreserved(items, mempool);
      EvictConfirmed(items);
      assert pool == s.pool - KeysOf(items);
      var local := SpeculativeItems(pool, Of(owner, asset));
      AvailableParts(s, Of(owner, asset), items, pool, local);
      available := available + local;
    }
  }

  lemma ListsConcat(a: seq<(Pointer, Output)>, m: map<Pointer, Output>, b: seq<(Pointer, Output)>,
                    n: map<Pointer, Output>)
    requires Lists(a, m) && Lists(b, n) && m.Keys !! n.Keys
    ensures Lists(a + b, m + n)
  {
    var c := a + b;
    forall i, j | 0 <= i < j < |c| ensures c[i].0 != c[j].0 {
      if i < |a| <= j { assert c[i].0 in m && c[j] == b[j - |a|] && b[j - |a|].0 in n; }
    }
    var u := m + n;
    forall p | p in u ensures exists i :: 0 <= i < |c| && c[i].0 == p {
      if p in n { var i :| 0 <= i < |b| && b[i].0 == p; assert c[|a| + i].0 == p; }
      else { var i :| 0 <= i < |a| && a[i].0 == p; assert c[i].0 == p; }
    }
  }
}
