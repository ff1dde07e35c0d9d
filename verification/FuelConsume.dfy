/**
 * `_try_consume_with_occ` (node/rpc/handler/fuel.py): optimistic fuel billing on top of the
 * ledger: the transaction of one round, the four-round retry loop, and what one sealed
 * consumption does to the fuel of every owner.
 */
module FuelConsume {
  import opened Wrappers
  import opened PtaLedger
  import opened PtaTotals
  import opened PtaBalance

  const MAX_OCC_RETRIES: nat := 4
  const TREASURY := "system_treasury"
  const FUEL := "fuel"

  function Min(a: int, b: int): int {
    if a <= b then a else b
  }

  /** The node's key and signature, used for every input on the tenant's behalf. */
  datatype Signer = Signer(pubkey: string, sign: Pointer -> string)

  // --- Building one transaction ----------------------------------------------------------------

  /** How many offered items the selection loop takes when it starts after the first `k`. */
  function TakeFrom(items: seq<(Pointer, Output)>, target: int, k: nat): (n: nat)
    requires k <= |items|
    ensures k <= n <= |items|
    ensures k < n ==> forall m :: k < m < n ==> ItemsTotal(items[..m]) < target
    ensures k < n < |items| ==> ItemsTotal(items[..n]) >= target
    ensures k < |items| ==> k < n
    decreases |items| - k
  {
    if k == |items| then k
    else if ItemsTotal(items[..k + 1]) >= target then k + 1
    else TakeFrom(items, target, k + 1)
  }

  function InputsFor(items: seq<(Pointer, Output)>, node: Signer): (r: seq<Input>)
    ensures |r| == |items|
    ensures forall i :: 0 <= i < |r| ==> r[i] == Input(items[i].0, node.sign(items[i].0), node.pubkey)
  {
    seq(|items|, i requires 0 <= i < |items| => Input(items[i].0, node.sign(items[i].0), node.pubkey))
  }

  function Fuel(amount: int, owner: string): Output {
    Output(amount, owner, FUEL, None)
  }

  function Bill(tenant: string, change: int, paid: int): seq<Output> {
    (if change > 0 then [Fuel(change, tenant)] else []) + [Fuel(paid, TREASURY)]
  }

  /** The transaction one round submits. */
  function ConsumeTx(tenant: string, requested: int, items: seq<(Pointer, Output)>, hash: string, node: Signer): Tx {
    var paid := Min(requested, ItemsTotal(items));
    var n := TakeFrom(items, paid, 0);
    Tx(hash, InputsFor(items[..n], node), Bill(tenant, ItemsTotal(items[..n]) - paid, paid))
  }

  /** The selection loop of one round. */
  method BuildTx(tenant: string, requested: int, items: seq<(Pointer, Output)>, hash: string, node: Signer)
    returns (tx: Tx, paid: int)
    requires requested > 0 && ItemsTotal(items) > 0
    ensures tx == ConsumeTx(tenant, requested, items, hash, node)
    ensures paid == Min(requested, ItemsTotal(items)) && paid > 0
  {
    paid := Min(requested, ItemsTotal(items));
    var inputs: seq<Input>, accumulated, k := [], 0, 0;
    while k < |items|
      invariant 0 <= k <= |items|
      invariant inputs == InputsFor(items[..k], node) && accumulated == ItemsTotal(items[..k])
      invariant TakeFrom(items, paid, 0) == TakeFrom(items, paid, k)
    {
      assert items[..k + 1][..k] == items[..k];
      inputs := inputs + [Input(items[k].0, node.sign(items[k].0), node.pubkey)];
      accumulated := accumulated + items[k].1.amount;
      k := k + 1;
      if accumulated >= paid {
        break;
      }
    }
    assert k == TakeFrom(items, paid, 0);
    var change := accumulated - paid;
    tx := Tx(hash, inputs, (if change > 0 then [Fuel(change, tenant)] else []) + [Fuel(paid, TREASURY)]);
  }

  /** The selection covers the bill with as few leading items as possible. */
  lemma {:induction false} SelectionCovers(requested: int, items: seq<(Pointer, Output)>)
    requires requested > 0 && ItemsTotal(items) > 0
    ensures var paid := Min(requested, ItemsTotal(items));
            var n := TakeFrom(items, paid, 0);
            && 0 < paid <= requested && 0 < n <= |items|
            && ItemsTotal(items[..n]) >= paid
            && (forall m :: 0 < m < n ==> ItemsTotal(items[..m]) < paid)
  {
    assert items[..|items|] == items;
  }

  /** What one round submits pays out exactly what the selected inputs hold. */
  lemma {:induction false} SelectionBalances(tenant: string, requested: int, items: seq<(Pointer, Output)>,
                                             hash: string, node: Signer)
    requires requested > 0 && ItemsTotal(items) > 0
    ensures var n := TakeFrom(items, Min(requested, ItemsTotal(items)), 0);
            OutputsTotal(ConsumeTx(tenant, requested, items, hash, node).outputs, Any()) == ItemsTotal(items[..n])
  {
    var paid := Min(requested, ItemsTotal(items));
    var n := TakeFrom(items, paid, 0);
    SelectionCovers(requested, items);
    BillTotal(tenant, ItemsTotal(items[..n]) - paid, paid, Any());
  }

  lemma {:induction false} BillTotal(tenant: string, change: int, paid: int, pick: Output -> bool)
    requires change >= 0
    ensures OutputsTotal(Bill(tenant, change, paid), pick)
         == (if pick(Fuel(change, tenant)) && change > 0 then change else 0) +
           (if pick(Fuel(paid, TREASURY)) then paid else 0)
  {
    var a, b := [Fuel(change, tenant)], [Fuel(paid, TREASURY)];
    assert OutputsTotal([], pick) == 0;
    assert a[..0] == [] && b[..0] == [] && (a + b)[..1] == a;
    assert OutputsTotal(a, pick) == if pick(a[0]) then change else 0;
    assert OutputsTotal(b, pick) == if pick(b[0]) then paid else 0;
    if change > 0 {
      assert OutputsTotal(a + b, pick) == OutputsTotal(a, pick) + if pick(b[0]) then paid else 0;
    } else {
      assert Bill(tenant, change, paid) == b;
    }
  }

  // --- The retry loop ----------------------------------------------------------------------------

  datatype Outcome = Executed | DoubleSpendRefused | AuthRefused | Crashed

  datatype Report =
    | Consumed(tx: Tx, amount: int)   // {"status": "SUCCESS", "tx_hash": ..., "consumed": amount}
    | NothingLeft                     // {"status": "SUCCESS", "tx_hash": "", "consumed": 0}
    | Dropped                         // {"status": "DROPPED_CONTENTION", ...}
    | Propagated                      // any other exception leaves the loop

  /** What round `k` does given what it sees and how its submission ends; None means another round. */
  function Round(k: nat, tenant: string, requested: int, seen: seq<(Pointer, Output)>, outcome: Outcome,
                 hash: string, node: Signer): Option<Report>
  {
    if ItemsTotal(seen) <= 0 then
      if 0 < k < MAX_OCC_RETRIES - 1 then None else Some(NothingLeft)
    else match outcome
      case Executed => Some(Consumed(ConsumeTx(tenant, requested, seen, hash, node), Min(requested, ItemsTotal(seen))))
      case DoubleSpendRefused => if k < MAX_OCC_RETRIES - 1 then None else Some(Dropped)
      case AuthRefused => Some(Dropped)
      case Crashed => Some(Propagated)
  }

  datatype Ending = Ending(report: Report, rounds: nat)

  /** The report of the first decisive round from round `k` on, and how many rounds were begun. */
  function FirstDecisive(k: nat, tenant: string, requested: int, views: nat -> seq<(Pointer, Output)>,
                         outcomes: nat -> Outcome, hashes: nat -> string, node: Signer): Ending
    requires k < MAX_OCC_RETRIES
    decreases MAX_OCC_RETRIES - k
  {
    match Round(k, tenant, requested, views(k), outcomes(k), hashes(k), node)
    case Some(report) => Ending(report, k + 1)
    case None => FirstDecisive(k + 1, tenant, requested, views, outcomes, hashes, node)
  }

  /** The loop always ends: there is a decisive round among the first four, and earlier ones are not. */
  lemma {:induction false} DecidesWithinFour(k: nat, tenant: string, requested: int,
                                           views: nat -> seq<(Pointer, Output)>,
                                             outcomes: nat -> Outcome, hashes: nat -> string, node: Signer)
    requires k < MAX_OCC_RETRIES
    ensures var e := FirstDecisive(k, tenant, requested, views, outcomes, hashes, node);
            && k < e.rounds <= MAX_OCC_RETRIES
            && Round(e.rounds - 1, tenant, requested, views(e.rounds - 1), outcomes(e.rounds - 1),
                     hashes(e.rounds - 1), node)
               == Some(e.report)
            && forall j :: k <= j < e.rounds - 1 ==>
                 Round(j, tenant, requested, views(j), outcomes(j), hashes(j), node).None?
    decreases MAX_OCC_RETRIES - k
  {
    if Round(k, tenant, requested, views(k), outcomes(k), hashes(k), node).None? {
      DecidesWithinFour(k + 1, tenant, requested, views, outcomes, hashes, node);
    }
  }

  /**
   * `_try_consume_with_occ`: whatever the environment shows and answers in each round, the loop
   * returns the report of the first decisive round.
   */
  method TryConsume(tenant: string, requested: int, views: nat -> seq<(Pointer, Output)>, outcomes: nat -> Outcome,
                    hashes: nat -> string, node: Signer) returns (report: Report, rounds: nat)
    requires requested > 0
    ensures Ending(report, rounds) == FirstDecisive(0, tenant, requested, views, outcomes, hashes, node)
    ensures 1 <= rounds <= MAX_OCC_RETRIES
  {
    DecidesWithinFour(0, tenant, requested, views, outcomes, hashes, node);
    var attempt := 0;
    while true
      invariant attempt < MAX_OCC_RETRIES
      invariant FirstDecisive(0, tenant, requested, views, outcomes, hashes, node)
             == FirstDecisive(attempt, tenant, requested, views, outcomes, hashes, node)
      decreases MAX_OCC_RETRIES - attempt
    {
      var available := views(attempt);
      if ItemsTotal(available) <= 0 {
        if !(attempt > 0 && attempt < MAX_OCC_RETRIES - 1) {
          return NothingLeft, attempt + 1;
        }
      } else {
        var tx, paid := BuildTx(tenant, requested, available, hashes(attempt), node);
        match outcomes(attempt) {
          case Executed => return Consumed(tx, paid), attempt + 1;
          case DoubleSpendRefused =>
            if attempt >= MAX_OCC_RETRIES - 1 { return Dropped, attempt + 1; }
          case AuthRefused => return Dropped, attempt + 1;
          case Crashed => return Propagated, attempt + 1;
        }
      }
      attempt := attempt + 1;
    }
  }

  // --- One consumption ----------------------------------------------------------------------

  datatype Call = Call(tenant: string, paid: int)

  /** `tx` spends distinct unspent outputs that hold fuel of the tenant. */
  ghost predicate Takes(u: map<Pointer, Output>, tx: Tx, tenant: string) {
    && DistinctPointers(tx.inputs) && Pointers(tx) <= u.Keys
    && forall p :: p in Pointers(tx) ==> Of(tenant, FUEL)(u[p])
  }

  /** `tx` pays the treasury and returns the rest to the tenant. */
  ghost predicate Pays(u: map<Pointer, Output>, tx: Tx, call: Call) {
    && 0 < call.paid <= InputsTotal(u, tx.inputs, Any())
    && tx.outputs == Bill(call.tenant, InputsTotal(u, tx.inputs, Any()) - call.paid, call.paid)
  }

  ghost predicate Backed(u: map<Pointer, Output>, tx: Tx, call: Call) {
    Takes(u, tx, call.tenant) && Pays(u, tx, call)
  }

  lemma {:induction false} SelectedTotal(u: map<Pointer, Output>, items: seq<(Pointer, Output)>, node: Signer)
    requires forall i :: 0 <= i < |items| ==> items[i].0 in u && u[items[i].0] == items[i].1
    ensures InputsTotal(u, InputsFor(items, node), Any()) == ItemsTotal(items)
    decreases |items|
  {
    if items != [] {
      var n := |items| - 1;
      SelectedTotal(u, items[..n], node);
      assert InputsFor(items, node)[..n] == InputsFor(items[..n], node);
    }
  }

  /** The leading items that one round selects. */
  function Selected(requested: int, items: seq<(Pointer, Output)>): seq<(Pointer, Output)> {
    items[..TakeFrom(items, Min(requested, ItemsTotal(items)), 0)]
  }

  lemma {:induction false} ConsumePointers(tenant: string, requested: int, items: seq<(Pointer, Output)>, hash: string,
                                           node: Signer, p: Pointer)
    requires p in Pointers(ConsumeTx(tenant, requested, items, hash, node))
    ensures exists k :: 0 <= k < |Selected(requested, items)| && Selected(requested, items)[k].0 == p
  {
    var tx, chosen := ConsumeTx(tenant, requested, items, hash, node), Selected(requested, items);
    var i :| i in tx.inputs && i.pointer == p;
    var k :| 0 <= k < |tx.inputs| && tx.inputs[k] == i;
    assert chosen[k].0 == p;
  }

  /** Offered items are unspent fuel of the tenant that nobody has claimed. */
  ghost predicate Offered(s: State, tenant: string, items: seq<(Pointer, Output)>) {
    && (forall i, j :: 0 <= i < j < |items| ==> items[i].0 != items[j].0)
    && (forall i :: 0 <= i < |items| ==>
          && items[i].0 in Unspent(Commits(s)) && Unspent(Commits(s))[items[i].0] == items[i].1
          && Of(tenant, FUEL)(items[i].1) && items[i].0 !in s.mempool)
  }

  lemma {:induction false} AvailableOffered(s: State, tenant: string, items: seq<(Pointer, Output)>)
    requires Disciplined(s) && Lists(items, Available(s, Of(tenant, FUEL)))
    ensures Offered(s, tenant, items)
  {
    AvailableExact(s, Of(tenant, FUEL));
  }

  /** With valid signatures a submission passes the check exactly when nobody claims what it selected. */
  lemma {:induction false} AdmittedIff(s: State, tenant: string, requested: int, items: seq<(Pointer, Output)>,
                                       hash: string, node: Signer, valid: Input -> bool)
    requires node.pubkey != "" && forall p :: valid(Input(p, node.sign(p), node.pubkey))
    ensures Accepts(s, ConsumeTx(tenant, requested, items, hash, node), valid)
       <==> forall i :: 0 <= i < |Selected(requested, items)| ==> Selected(requested, items)[i].0 !in s.mempool
    ensures Signed(ConsumeTx(tenant, requested, items, hash, node))
  {
    var tx, chosen := ConsumeTx(tenant, requested, items, hash, node), Selected(requested, items);
    assert forall k :: 0 <= k < |chosen| ==> tx.inputs[k].pointer == chosen[k].0;
  }

  lemma {:induction false} OfferedDistinct(s: State, tenant: string, requested: int, items: seq<(Pointer, Output)>,
                                           hash: string, node: Signer)
    requires Offered(s, tenant, Selected(requested, items))
    ensures DistinctPointers(ConsumeTx(tenant, requested, items, hash, node).inputs)
  {
    var tx, chosen := ConsumeTx(tenant, requested, items, hash, node), Selected(requested, items);
    forall i, j | 0 <= i < j < |chosen| ensures tx.inputs[i].pointer != tx.inputs[j].pointer {
      assert tx.inputs[i].pointer == chosen[i].0 && tx.inputs[j].pointer == chosen[j].0;
    }
  }

  lemma {:induction false} OfferedTaken(s: State, tenant: string, requested: int, items: seq<(Pointer, Output)>,
                                        hash: string, node: Signer)
    requires Offered(s, tenant, Selected(requested, items))
    ensures Takes(Unspent(Commits(s)), ConsumeTx(tenant, requested, items, hash, node), tenant)
  {
    var u, tx := Unspent(Commits(s)), ConsumeTx(tenant, requested, items, hash, node);
    OfferedDistinct(s, tenant, requested, items, hash, node);
    forall p | p in Pointers(tx) ensures p in u && Of(tenant, FUEL)(u[p]) {
      ConsumePointers(tenant, requested, items, hash, node, p);
    }
  }

  lemma {:induction false} OfferedPaid(s: State, tenant: string, requested: int, items: seq<(Pointer, Output)>,
                                       hash: string, node: Signer)
    requires Offered(s, tenant, Selected(requested, items)) && requested > 0 && ItemsTotal(items) > 0
    ensures Pays(Unspent(Commits(s)), ConsumeTx(tenant, requested, items, hash, node),
                 Call(tenant, Min(requested, ItemsTotal(items))))
  {
    SelectionCovers(requested, items);
    SelectedTotal(Unspent(Commits(s)), Selected(requested, items), node);
  }

  /**
   * A round whose selected items are unspent and unclaimed names only existing unspent fuel of
   * the tenant, and balances.
   */
  lemma {:induction false} ConsumptionBacked(s: State, tenant: string, requested: int, items: seq<(Pointer, Output)>,
                                             hash: string, node: Signer)
    requires Offered(s, tenant, Selected(requested, items)) && requested > 0 && ItemsTotal(items) > 0
    ensures Backed(Unspent(Commits(s)), ConsumeTx(tenant, requested, items, hash, node),
                   Call(tenant, Min(requested, ItemsTotal(items))))
  {
    OfferedTaken(s, tenant, requested, items, hash, node);
    OfferedPaid(s, tenant, requested, items, hash, node);
  }

  lemma {:induction false} InputsOfOwner(u: map<Pointer, Output>, inputs: seq<Input>, tenant: string,
                                         pick: Output -> bool)
    requires forall i :: i in inputs ==> i.pointer in u && Of(tenant, FUEL)(u[i.pointer])
    requires (forall o :: Of(tenant, FUEL)(o) ==> pick(o)) || (forall o :: Of(tenant, FUEL)(o) ==> !pick(o))
    ensures InputsTotal(u, inputs, pick)
         == if exists o :: Of(tenant, FUEL)(o) && pick(o) then InputsTotal(u, inputs, Any()) else 0
    decreases |inputs|
  {
    assert Of(tenant, FUEL)(Fuel(0, tenant));
    if inputs != [] {
      var n := |inputs| - 1;
      InputsOfOwner(u, inputs[..n], tenant, pick);
      assert inputs[n] in inputs;
    }
  }

  /** What one sealed consumption does to the fuel of any owner. */
  lemma {:induction false} BillMovesFuel(commits: seq<Tx>, tx: Tx, call: Call, owner: string)
    requires InputsKnown(commits) && Fresh(commits, tx) && Backed(Unspent(commits), tx, call)
    ensures Total(Unspent(commits + [tx]), Of(owner, FUEL))
         == Total(Unspent(commits), Of(owner, FUEL)) - (if owner == call.tenant then call.paid else 0)
            + (if owner == TREASURY then call.paid else 0)
  {
    var u, pick := Unspent(commits), Of(owner, FUEL);
    SealedTotal(commits, tx, pick);
    ConsumedTotal(u, tx, pick);
    forall i | i in tx.inputs ensures i.pointer in u && Of(call.tenant, FUEL)(u[i.pointer]) {
      assert i.pointer in Pointers(tx);
    }
    InputsOfOwner(u, tx.inputs, call.tenant, pick);
    BillTotal(call.tenant, InputsTotal(u, tx.inputs, Any()) - call.paid, call.paid, pick);
    assert pick(Fuel(0, owner));
    assert Of(call.tenant, FUEL)(Fuel(0, owner)) <==> owner == call.tenant;
  }

  lemma {:induction false} BillKeepsFuel(commits: seq<Tx>, tx: Tx, call: Call)
    requires InputsKnown(commits) && Fresh(commits, tx) && Backed(Unspent(commits), tx, call)
    ensures Total(Unspent(commits + [tx]), AllFuel()) == Total(Unspent(commits), AllFuel())
  {
    var u, pick := Unspent(commits), AllFuel();
    SealedTotal(commits, tx, pick);
    ConsumedTotal(u, tx, pick);
    forall i | i in tx.inputs ensures i.pointer in u && Of(call.tenant, FUEL)(u[i.pointer]) {
      assert i.pointer in Pointers(tx);
    }
    InputsOfOwner(u, tx.inputs, call.tenant, pick);
    assert Of(call.tenant, FUEL)(Fuel(0, call.tenant)) && pick(Fuel(0, call.tenant));
    BillTotal(call.tenant, InputsTotal(u, tx.inputs, Any()) - call.paid, call.paid, pick);
  }

  function AllFuel(): Output -> bool {
    (o: Output) => o.asset == FUEL
  }
}
