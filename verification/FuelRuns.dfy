/**
 * Any number of `_try_consume_with_occ` loops (node/rpc/handler/fuel.py) over one ledger, with
 * every interleaving of their steps: a loop reads a listing, submits a transaction built from it
 * at some later time, and is suspended until the store answers.
 */
module FuelRuns {
  import opened Wrappers
  import opened PtaLedger
  import opened PtaTotals
  import opened PtaBalance
  import opened FuelConsume

  type Items = seq<(Pointer, Output)>

  // --- The state machine -------------------------------------------------------------------------

  /** A completed round: the listing it read, how its submission ended, and the hash it used. */
  datatype Attempt = Attempt(seen: Items, outcome: Outcome, hash: string)

  datatype Phase =
    | Looking                               // at the top of a round
    | Holding(items: Items)                 // a listing has been read, possibly long ago
    | Waiting(items: Items, hash: string)   // inputs reserved, suspended in the store
    | Finished(report: Report)

  datatype Client = Client(tenant: string, requested: int, past: seq<Attempt>, phase: Phase)

  /** The ledger, the loops, and what the sealed consumptions have moved so far. */
  datatype Books = Books(s: State, clients: map<nat, Client>, paid: map<string, int>, gained: int)

  datatype StoreAnswer =
    | Kernel                        // sealed
    | NoKernel                      // unsealed; the call still returns the hash
    | StoreRaised(error: Outcome)   // an exception, classified by the `except` clause

  datatype Move =
    | Arrive(id: nat, tenant: string, requested: int)
    | Look(id: nat, items: Items)
    | Submit(id: nat, hash: string)
    | Settle(id: nat, answer: StoreAnswer)
    | Query(keys: set<Pointer>)     // some other balance query evicts pool entries

  function PaidBy(b: Books, owner: string): int {
    if owner in b.paid then b.paid[owner] else 0
  }

  function BillOf(c: Client, items: Items): Call {
    Call(c.tenant, Min(c.requested, ItemsTotal(items)))
  }

  /** The end of a round: report, or go around again. */
  function Close(c: Client, a: Attempt, node: Signer): Client {
    match Round(|c.past|, c.tenant, c.requested, a.seen, a.outcome, a.hash, node)
    case Some(report) => c.(past := c.past + [a], phase := Finished(report))
    case None => c.(past := c.past + [a], phase := Looking)
  }

  function AfterLook(c: Client, items: Items, node: Signer): Client {
    if ItemsTotal(items) <= 0 then Close(c, Attempt(items, Executed, ""), node) else c.(phase := Holding(items))
  }

  function AfterSubmit(c: Client, items: Items, hash: string, refusal: Option<Refusal>, node: Signer): Client {
    match refusal
    case None => c.(phase := Waiting(items, hash))
    case Some(DoubleSpend(_)) => Close(c, Attempt(items, DoubleSpendRefused, hash), node)
    case Some(AuthFailed(_)) => Close(c, Attempt(items, AuthRefused, hash), node)
  }

  function OutcomeOf(answer: StoreAnswer): Outcome {
    match answer case StoreRaised(error) => error case _ => Executed
  }

  function EventOf(id: nat, answer: StoreAnswer): Event {
    match answer case Kernel => Sealed(id) case NoKernel => Unsealed(id) case StoreRaised(_) => Raised(id)
  }

  /** A move is possible: the loop is where it says, and what it reads or draws comes from the adapter. */
  ghost predicate Possible(b: Books, m: Move) {
    match m
    case Arrive(id, tenant, requested) => id !in b.clients && requested > 0
    case Look(id, items) =>
      id in b.clients && b.clients[id].phase.Looking? && Lists(items, Available(b.s, Of(b.clients[id].tenant, FUEL)))
    case Submit(id, hash) =>
      && id in b.clients && b.clients[id].phase.Holding?
      && (forall p :: p in AllProduced(Commits(b.s)) ==> p.txHash != hash)
      && (forall i :: i in b.s.inflight ==> b.s.inflight[i].hash != hash)
    case Settle(id, answer) => id in b.clients && b.clients[id].phase.Waiting? && answer != StoreRaised(Executed)
    case Query(_) => true
  }

  function TxFor(c: Client, items: Items, hash: string, node: Signer): Tx {
    ConsumeTx(c.tenant, c.requested, items, hash, node)
  }

  function DoLook(b: Books, id: nat, items: Items, node: Signer, valid: Input -> bool): Books
    requires id in b.clients
  {
    var c := b.clients[id];
    b.(s := Step(b.s, Evict(Confirmed(Commits(b.s), Of(c.tenant, FUEL)).Keys), valid),
       clients := b.clients[id := AfterLook(c, items, node)])
  }

  /** The synchronous part of `execute_transaction`; a refused call leaves the ledger as it is. */
  function DoSubmit(b: Books, id: nat, hash: string, node: Signer, valid: Input -> bool): Books
    requires id in b.clients && b.clients[id].phase.Holding?
  {
    var c := b.clients[id];
    var tx := TxFor(c, c.phase.items, hash, node);
    b.(s := Step(b.s, Begin(id, tx), valid),
       clients := b.clients[id := AfterSubmit(c, c.phase.items, hash, Check(tx.inputs, 0, b.s.mempool, valid), node)])
  }

  function DoSettle(b: Books, id: nat, answer: StoreAnswer, node: Signer, valid: Input -> bool): Books
    requires id in b.clients && b.clients[id].phase.Waiting?
  {
    var c := b.clients[id];
    var call := BillOf(c, c.phase.items);
    var t := b.(s := Step(b.s, EventOf(id, answer), valid),
                clients := b.clients[id := Close(c, Attempt(c.phase.items, OutcomeOf(answer), c.phase.hash), node)]);
    if answer.Kernel?
    then t.(paid := b.paid[call.tenant := PaidBy(b, call.tenant) + call.paid], gained := b.gained + call.paid)
    else t
  }

  ghost function Advance(b: Books, m: Move, node: Signer, valid: Input -> bool): Books
    requires Possible(b, m)
  {
    match m
    case Arrive(id, tenant, requested) => b.(clients := b.clients[id := Client(tenant, requested, [], Looking)])
    case Look(id, items) => DoLook(b, id, items, node, valid)
    case Submit(id, hash) => DoSubmit(b, id, hash, node, valid)
    case Settle(id, answer) => DoSettle(b, id, answer, node, valid)
    case Query(keys) => b.(s := Step(b.s, Evict(keys), valid))
  }

  ghost predicate PossibleRun(b: Books, moves: seq<Move>, node: Signer, valid: Input -> bool)
    decreases |moves|
  {
    moves == [] || (Possible(b, moves[0]) && PossibleRun(Advance(b, moves[0], node, valid), moves[1..], node, valid))
  }

  ghost function Play(b: Books, moves: seq<Move>, node: Signer, valid: Input -> bool): Books
    requires PossibleRun(b, moves, node, valid)
    decreases |moves|
  {
    if moves == [] then b else Play(Advance(b, moves[0], node, valid), moves[1..], node, valid)
  }

  // --- Stale listings ------------------------------------------------------------------------------

  /**
   * The items were offered at some earlier moment of the process: produced by some commit, fuel of
   * the tenant, and not spent before the process started. Some may have been spent or reserved since.
   */
  ghost predicate OnceOffered(s: State, tenant: string, items: Items) {
    && (forall i, j :: 0 <= i < j < |items| ==> items[i].0 != items[j].0)
    && (forall i :: 0 <= i < |items| ==>
          && items[i].0 in AllProduced(Commits(s)) && AllProduced(Commits(s))[items[i].0] == items[i].1
          && Of(tenant, FUEL)(items[i].1) && items[i].0 !in Spent(s.prior))
  }

  lemma {:induction false} PriorSpent(prior: seq<Tx>, sealed: seq<Tx>)
    ensures Spent(prior) <= Spent(prior + sealed)
    decreases |sealed|
  {
    if sealed == [] {
      assert prior + sealed == prior;
    } else {
      var n := |sealed| - 1;
      PriorSpent(prior, sealed[..n]);
      assert prior + sealed == (prior + sealed[..n]) + [sealed[n]];
      Snoc(prior + sealed[..n], sealed[n]);
    }
  }

  lemma {:induction false} SpentByWhom(prior: seq<Tx>, sealed: seq<Tx>, p: Pointer)
    requires p in Spent(prior + sealed)
    ensures p in Spent(prior) || exists k :: 0 <= k < |sealed| && p in Pointers(sealed[k])
    decreases |sealed|
  {
    if sealed == [] {
      assert prior + sealed == prior;
    } else {
      var n := |sealed| - 1;
      assert prior + sealed == (prior + sealed[..n]) + [sealed[n]];
      Snoc(prior + sealed[..n], sealed[n]);
      if p !in Pointers(sealed[n]) {
        SpentByWhom(prior, sealed[..n], p);
        if p !in Spent(prior) {
          var k :| 0 <= k < n && p in Pointers(sealed[..n][k]);
          assert sealed[..n][k] == sealed[k];
        }
      }
    }
  }

  /** A listing read now is offered now. */
  lemma {:induction false} ListedOnceOffered(s: State, tenant: string, items: Items)
    requires Disciplined(s) && Lists(items, Available(s, Of(tenant, FUEL)))
    ensures OnceOffered(s, tenant, items)
  {
    AvailableOffered(s, tenant, items);
    PriorSpent(s.prior, s.sealed);
  }

  /** An output that was offered once and is unclaimed now is still unspent. */
  lemma {:induction false} UnclaimedStillUnspent(s: State, p: Pointer)
    requires Exclusive(s) && p in AllProduced(Commits(s)) && p !in Spent(s.prior) && p !in s.mempool
    ensures p in Unspent(Commits(s)) && Unspent(Commits(s))[p] == AllProduced(Commits(s))[p]
  {
    if p in Spent(Commits(s)) {
      SpentByWhom(s.prior, s.sealed, p);
      var k :| 0 <= k < |s.sealed| && p in Pointers(s.sealed[k]);
      assert SpentAt(s, k, p);
    }
  }

  /** Whatever happened since the listing was read: if the submission is admitted, its items are unspent now. */
  lemma {:induction false} AdmittedOffered(s: State, tenant: string, requested: int, items: Items, hash: string,
                                           node: Signer, valid: Input -> bool)
    requires Disciplined(s) && OnceOffered(s, tenant, items) && node.pubkey != ""
    requires Accepts(s, ConsumeTx(tenant, requested, items, hash, node), valid)
    ensures Offered(s, tenant, Selected(requested, items)) && Signed(ConsumeTx(tenant, requested, items, hash, node))
  {
    var tx, chosen := ConsumeTx(tenant, requested, items, hash, node), Selected(requested, items);
    forall i | 0 <= i < |chosen|
      ensures chosen[i].0 in Unspent(Commits(s)) && Unspent(Commits(s))[chosen[i].0] == chosen[i].1
      ensures Of(tenant, FUEL)(chosen[i].1) && chosen[i].0 !in s.mempool
    {
      assert tx.inputs[i].pointer == chosen[i].0 && chosen[i] == items[i];
      UnclaimedStillUnspent(s, chosen[i].0);
    }
    forall i, j | 0 <= i < j < |chosen| ensures chosen[i].0 != chosen[j].0 {
      assert chosen[i] == items[i] && chosen[j] == items[j];
    }
  }

  // --- The books balance --------------------------------------------------------------------------------

  /** A waiting loop has exactly its own transaction in the ledger, and that transaction balances. */
  ghost predicate WaitingBacked(b: Books, id: nat, node: Signer)
    requires id in b.clients && b.clients[id].phase.Waiting?
  {
    var c := b.clients[id];
    && id in b.s.inflight && b.s.inflight[id] == TxFor(c, c.phase.items, c.phase.hash, node)
    && Backed(Unspent(Commits(b.s)), b.s.inflight[id], BillOf(c, c.phase.items))
  }

  ghost predicate HoldingOffered(b: Books, id: nat)
    requires id in b.clients && b.clients[id].phase.Holding?
  {
    var c := b.clients[id];
    OnceOffered(b.s, c.tenant, c.phase.items) && ItemsTotal(c.phase.items) > 0
  }

  ghost predicate Audited(b: Books, node: Signer) {
    && Disciplined(b.s)
    && (forall id :: id in b.s.inflight ==> id in b.clients && b.clients[id].phase.Waiting?)
    && (forall id :: id in b.clients && b.clients[id].phase.Waiting? ==> WaitingBacked(b, id, node))
    && (forall id :: id in b.clients && b.clients[id].phase.Holding? ==> HoldingOffered(b, id))
    && (forall id :: id in b.clients ==> b.clients[id].requested > 0)
  }

  /** Books opened on a quiet ledger are audited. */
  lemma {:induction false} OpeningBooks(s: State, node: Signer)
    requires Disciplined(s) && s.inflight == map[]
    ensures Audited(Books(s, map[], map[], 0), node)
  {
  }

  /** The other loops' transactions still balance in `t`, and their listings are still once offered. */
  ghost predicate OthersStay(b: Books, t: Books, id: nat) {
    && (forall k :: k in b.clients && k != id && b.clients[k].phase.Waiting? ==>
          && k in b.s.inflight
          && Backed(Unspent(Commits(t.s)), b.s.inflight[k], BillOf(b.clients[k], b.clients[k].phase.items)))
    && (forall k :: k in b.clients && k != id && b.clients[k].phase.Holding? ==>
          OnceOffered(t.s, b.clients[k].tenant, b.clients[k].phase.items))
  }

  lemma {:induction false} OthersStaySame(b: Books, t: Books, id: nat, node: Signer)
    requires Audited(b, node) && t.s.prior == b.s.prior && t.s.sealed == b.s.sealed
    ensures OthersStay(b, t, id)
  {
    assert Commits(t.s) == Commits(b.s);
    forall k | k in b.clients && b.clients[k].phase.Waiting?
      ensures k in b.s.inflight
      ensures Backed(Unspent(Commits(t.s)), b.s.inflight[k], BillOf(b.clients[k], b.clients[k].phase.items))
    {
      assert WaitingBacked(b, k, node);
    }
    forall k | k in b.clients && b.clients[k].phase.Holding?
      ensures OnceOffered(t.s, b.clients[k].tenant, b.clients[k].phase.items)
    {
      assert HoldingOffered(b, k);
    }
  }

  /** Loop `id` has moved; its own claim and listing are in order, and the others are as they were. */
  ghost predicate Moved(b: Books, t: Books, id: nat, node: Signer) {
    && id in t.clients && t.clients == b.clients[id := t.clients[id]] && t.clients[id].requested > 0
    && t.s.inflight - {id} == b.s.inflight - {id}
    && (id in t.s.inflight <==> t.clients[id].phase.Waiting?)
    && (t.clients[id].phase.Waiting? ==> WaitingBacked(t, id, node))
    && (t.clients[id].phase.Holding? ==> HoldingOffered(t, id))
  }

  lemma {:induction false} MovedAudited(b: Books, t: Books, id: nat, node: Signer)
    requires Audited(b, node) && Disciplined(t.s) && Moved(b, t, id, node) && OthersStay(b, t, id)
    ensures Audited(t, node)
  {
    forall k | k in t.s.inflight ensures k in t.clients && t.clients[k].phase.Waiting? {
      if k != id { assert k in t.s.inflight - {id}; assert k in b.s.inflight; }
    }
    forall k | k in t.clients && t.clients[k].phase.Waiting? ensures WaitingBacked(t, k, node) {
      if k != id { OtherWaiting(b, t, id, k, node); }
    }
    forall k | k in t.clients && t.clients[k].phase.Holding? ensures HoldingOffered(t, k) {
      if k != id { assert HoldingOffered(b, k); }
    }
  }

  lemma {:induction false} OtherWaiting(b: Books, t: Books, id: nat, k: nat, node: Signer)
    requires Audited(b, node) && Moved(b, t, id, node) && OthersStay(b, t, id)
    requires k != id && k in t.clients && t.clients[k].phase.Waiting?
    ensures WaitingBacked(t, k, node)
  {
    assert t.clients[k] == b.clients[k] && WaitingBacked(b, k, node);
    assert k in b.s.inflight - {id} && (t.s.inflight - {id})[k] == (b.s.inflight - {id})[k];
  }

  lemma {:induction false} BeginLedger(s: State, id: nat, tx: Tx, valid: Input -> bool)
    requires id !in s.inflight && Accepts(s, tx, valid)
    ensures var t := Step(s, Begin(id, tx), valid);
            && t.prior == s.prior && t.sealed == s.sealed && id in t.inflight && t.inflight[id] == tx
            && t.inflight - {id} == s.inflight - {id}
  {
    assert s.inflight[id := tx] - {id} == s.inflight - {id};
  }

  lemma {:induction false} EndLedger(s: State, id: nat, answer: StoreAnswer, valid: Input -> bool)
    requires id in s.inflight
    ensures var t := Step(s, EventOf(id, answer), valid);
            && t.prior == s.prior && id !in t.inflight && t.inflight - {id} == s.inflight - {id}
            && (!answer.Kernel? ==> t == Release(s, id) && t.sealed == s.sealed)
  {
    assert (s.inflight - {id}) - {id} == s.inflight - {id};
  }

  lemma {:induction false} NotInFlight(b: Books, id: nat, node: Signer)
    requires Audited(b, node) && (id in b.clients ==> !b.clients[id].phase.Waiting?)
    ensures id !in b.s.inflight
  {
  }

  lemma {:induction false} CloseKeepsTerms(c: Client, a: Attempt, node: Signer)
    ensures Close(c, a, node).requested == c.requested && Close(c, a, node).tenant == c.tenant
    ensures Close(c, a, node).phase.Looking? || Close(c, a, node).phase.Finished?
  {
  }

  lemma {:induction false} LookAudited(b: Books, id: nat, items: Items, node: Signer, valid: Input -> bool)
    requires Audited(b, node) && Possible(b, Look(id, items))
    ensures Audited(Advance(b, Look(id, items), node, valid), node)
    ensures Commits(Advance(b, Look(id, items), node, valid).s) == Commits(b.s)
  {
    var c := b.clients[id];
    var t := Advance(b, Look(id, items), node, valid);
    NotInFlight(b, id, node);
    ListedOnceOffered(b.s, c.tenant, items);
    CloseKeepsTerms(c, Attempt(items, Executed, ""), node);
    StepDisciplined(b.s, Evict(Confirmed(Commits(b.s), Of(c.tenant, FUEL)).Keys), valid);
    assert Commits(t.s) == Commits(b.s);
    OthersStaySame(b, t, id, node);
    MovedAudited(b, t, id, node);
  }

  /** A refused submission changes nothing in the ledger, whatever the listing was. */
  lemma {:induction false} RefusedChangesNothing(b: Books, id: nat, hash: string, node: Signer, valid: Input -> bool)
    requires Audited(b, node) && Possible(b, Submit(id, hash))
    requires !Accepts(b.s, TxFor(b.clients[id], b.clients[id].phase.items, hash, node), valid)
    ensures Advance(b, Submit(id, hash), node, valid).s == b.s
    ensures Audited(Advance(b, Submit(id, hash), node, valid), node)
  {
    var c := b.clients[id];
    var t := Advance(b, Submit(id, hash), node, valid);
    NotInFlight(b, id, node);
    CloseKeepsTerms(c, Attempt(c.phase.items, DoubleSpendRefused, hash), node);
    CloseKeepsTerms(c, Attempt(c.phase.items, AuthRefused, hash), node);
    OthersStaySame(b, t, id, node);
    MovedAudited(b, t, id, node);
  }

  /** An admitted submission is backed by the ledger as it is now, however old its listing is. */
  lemma {:induction false} AdmittedBacked(b: Books, id: nat, hash: string, node: Signer, valid: Input -> bool)
    requires Audited(b, node) && Possible(b, Submit(id, hash)) && node.pubkey != ""
    requires Accepts(b.s, TxFor(b.clients[id], b.clients[id].phase.items, hash, node), valid)
    ensures Backed(Unspent(Commits(b.s)), TxFor(b.clients[id], b.clients[id].phase.items, hash, node),
                   BillOf(b.clients[id], b.clients[id].phase.items))
    ensures Orderly(b.s, Begin(id, TxFor(b.clients[id], b.clients[id].phase.items, hash, node)))
  {
    var c := b.clients[id];
    assert HoldingOffered(b, id);
    AdmittedOffered(b.s, c.tenant, c.requested, c.phase.items, hash, node, valid);
    ConsumptionBacked(b.s, c.tenant, c.requested, c.phase.items, hash, node);
  }

  lemma {:induction false} AdmittedAudited(b: Books, id: nat, hash: string, node: Signer, valid: Input -> bool)
    requires Audited(b, node) && Possible(b, Submit(id, hash)) && node.pubkey != ""
    requires Accepts(b.s, TxFor(b.clients[id], b.clients[id].phase.items, hash, node), valid)
    ensures Audited(Advance(b, Submit(id, hash), node, valid), node)
    ensures Commits(Advance(b, Submit(id, hash), node, valid).s) == Commits(b.s)
    ensures id in Advance(b, Submit(id, hash), node, valid).s.inflight
  {
    var c := b.clients[id];
    var tx := TxFor(c, c.phase.items, hash, node);
    var t := Advance(b, Submit(id, hash), node, valid);
    NotInFlight(b, id, node);
    AdmittedBacked(b, id, hash, node, valid);
    BeginDisciplined(b.s, id, tx, valid);
    BeginLedger(b.s, id, tx, valid);
    OthersStaySame(b, t, id, node);
    MovedAudited(b, t, id, node);
  }

  // --- The store answers -----------------------------------------------------------------------------------

  lemma {:induction false} InputsTotalAgree(u: map<Pointer, Output>, v: map<Pointer, Output>, inputs: seq<Input>,
                                            pick: Output -> bool)
    requires forall i :: i in inputs ==> i.pointer in u && i.pointer in v && u[i.pointer] == v[i.pointer]
    ensures InputsTotal(u, inputs, pick) == InputsTotal(v, inputs, pick)
    decreases |inputs|
  {
    if inputs != [] {
      assert inputs[|inputs| - 1] in inputs;
      InputsTotalAgree(u, v, inputs[..|inputs| - 1], pick);
    }
  }

  ghost predicate AgreeOn(u: map<Pointer, Output>, v: map<Pointer, Output>, keys: set<Pointer>) {
    forall p :: p in keys ==> p in u && p in v && u[p] == v[p]
  }

  lemma {:induction false} BackedAgree(u: map<Pointer, Output>, v: map<Pointer, Output>, tx: Tx, call: Call)
    requires Backed(u, tx, call) && AgreeOn(u, v, Pointers(tx))
    ensures Backed(v, tx, call)
  {
    forall i | i in tx.inputs ensures i.pointer in Pointers(tx) {}
    InputsTotalAgree(u, v, tx.inputs, Any());
  }

  /** Sealing one call leaves the inputs of every other pending call as they were. */
  lemma {:induction false} OthersUntouched(s: State, id: nat, other: nat)
    requires Disciplined(s) && id in s.inflight && other in s.inflight && other != id
    ensures AgreeOn(Unspent(Commits(s)), Unspent(Commits(s) + [s.inflight[id]]), Pointers(s.inflight[other]))
  {
    SealedUnspent(Commits(s), s.inflight[id]);
    forall p | p in Pointers(s.inflight[other]) ensures p !in Pointers(s.inflight[id]) {
      assert ReservedBy(s, other, p);
      assert p in Pointers(s.inflight[id]) ==> ReservedBy(s, id, p);
    }
  }

  lemma {:induction false} OthersBacked(b: Books, id: nat, k: nat, node: Signer)
    requires Audited(b, node) && id in b.s.inflight && k != id && k in b.clients && b.clients[k].phase.Waiting?
    ensures k in b.s.inflight
    ensures Backed(Unspent(Commits(b.s) + [b.s.inflight[id]]), b.s.inflight[k],
                   BillOf(b.clients[k], b.clients[k].phase.items))
  {
    assert WaitingBacked(b, k, node);
    OthersUntouched(b.s, id, k);
    BackedAgree(Unspent(Commits(b.s)), Unspent(Commits(b.s) + [b.s.inflight[id]]), b.s.inflight[k],
                BillOf(b.clients[k], b.clients[k].phase.items));
  }

  /** A listing read earlier stays once offered when a fresh transaction is sealed. */
  lemma {:induction false} OnceOfferedStays(s: State, id: nat, valid: Input -> bool, tenant: string, items: Items)
    requires Disciplined(s) && id in s.inflight && OnceOffered(s, tenant, items)
    ensures OnceOffered(Step(s, Sealed(id), valid), tenant, items)
  {
    var t, tx := Step(s, Sealed(id), valid), s.inflight[id];
    SealedCommits(s, id, valid);
    Snoc(Commits(s), tx);
    forall i | 0 <= i < |items|
      ensures items[i].0 in AllProduced(Commits(t)) && AllProduced(Commits(t))[items[i].0] == items[i].1
    {
      assert items[i].0.txHash != tx.hash;
    }
  }

  lemma {:induction false} OthersStaySealed(b: Books, t: Books, id: nat, node: Signer, valid: Input -> bool)
    requires Audited(b, node) && id in b.s.inflight && t.s == Step(b.s, Sealed(id), valid)
    ensures OthersStay(b, t, id)
  {
    SealedCommits(b.s, id, valid);
    forall k | k in b.clients && k != id && b.clients[k].phase.Waiting?
      ensures k in b.s.inflight
      ensures Backed(Unspent(Commits(t.s)), b.s.inflight[k], BillOf(b.clients[k], b.clients[k].phase.items))
    {
      OthersBacked(b, id, k, node);
    }
    forall k | k in b.clients && b.clients[k].phase.Holding?
      ensures OnceOffered(t.s, b.clients[k].tenant, b.clients[k].phase.items)
    {
      assert HoldingOffered(b, k);
      OnceOfferedStays(b.s, id, valid, b.clients[k].tenant, b.clients[k].phase.items);
    }
  }

  lemma {:induction false} SealAudited(b: Books, id: nat, node: Signer, valid: Input -> bool)
    requires Audited(b, node) && Possible(b, Settle(id, Kernel))
    ensures id in b.s.inflight
    ensures Audited(Advance(b, Settle(id, Kernel), node, valid), node)
    ensures Commits(Advance(b, Settle(id, Kernel), node, valid).s) == Commits(b.s) + [b.s.inflight[id]]
  {
    var t := Advance(b, Settle(id, Kernel), node, valid);
    var c := b.clients[id];
    assert WaitingBacked(b, id, node);
    SealDisciplined(b.s, id, valid);
    SealedCommits(b.s, id, valid);
    CloseKeepsTerms(c, Attempt(c.phase.items, Executed, c.phase.hash), node);
    EndLedger(b.s, id, Kernel, valid);
    OthersStaySealed(b, t, id, node, valid);
    MovedAudited(b, t, id, node);
  }

  lemma {:induction false} AbandonAudited(b: Books, id: nat, answer: StoreAnswer, node: Signer, valid: Input -> bool)
    requires Audited(b, node) && Possible(b, Settle(id, answer)) && !answer.Kernel?
    ensures Audited(Advance(b, Settle(id, answer), node, valid), node)
    ensures Commits(Advance(b, Settle(id, answer), node, valid).s) == Commits(b.s)
  {
    var t := Advance(b, Settle(id, answer), node, valid);
    var c := b.clients[id];
    assert WaitingBacked(b, id, node);
    ReleaseDisciplined(b.s, id);
    CloseKeepsTerms(c, Attempt(c.phase.items, OutcomeOf(answer), c.phase.hash), node);
    EndLedger(b.s, id, answer, valid);
    OthersStaySame(b, t, id, node);
    MovedAudited(b, t, id, node);
  }

  // --- Conservation -------------------------------------------------------------------------------------------

  /** An owner's unspent fuel with its sealed payments undone: the quantity every run keeps. */
  ghost function FuelOf(b: Books, owner: string): int {
    Total(Unspent(Commits(b.s)), Of(owner, FUEL)) + PaidBy(b, owner) - (if owner == TREASURY then b.gained else 0)
  }

  ghost function FuelInAll(b: Books): int {
    Total(Unspent(Commits(b.s)), AllFuel())
  }

  ghost predicate SameFuel(t: Books, b: Books) {
    FuelInAll(t) == FuelInAll(b) && forall owner :: FuelOf(t, owner) == FuelOf(b, owner)
  }

  lemma {:induction false} QuietSameFuel(t: Books, b: Books)
    requires Commits(t.s) == Commits(b.s) && t.paid == b.paid && t.gained == b.gained
    ensures SameFuel(t, b)
  {
  }

  lemma {:induction false} SealSameFuel(b: Books, id: nat, node: Signer, valid: Input -> bool)
    requires Audited(b, node) && Possible(b, Settle(id, Kernel))
    ensures SameFuel(Advance(b, Settle(id, Kernel), node, valid), b)
  {
    assert WaitingBacked(b, id, node);
    forall owner ensures FuelOf(Advance(b, Settle(id, Kernel), node, valid), owner) == FuelOf(b, owner) {
      SealMovesFuel(b, id, node, valid, owner);
    }
    SealAudited(b, id, node, valid);
    BillKeepsFuel(Commits(b.s), b.s.inflight[id], BillOf(b.clients[id], b.clients[id].phase.items));
  }

  lemma {:induction false} SealMovesFuel(b: Books, id: nat, node: Signer, valid: Input -> bool, owner: string)
    requires Audited(b, node) && Possible(b, Settle(id, Kernel))
    ensures FuelOf(Advance(b, Settle(id, Kernel), node, valid), owner) == FuelOf(b, owner)
  {
    var call := BillOf(b.clients[id], b.clients[id].phase.items);
    assert WaitingBacked(b, id, node);
    SealAudited(b, id, node, valid);
    BillMovesFuel(Commits(b.s), b.s.inflight[id], call, owner);
    PaymentBooked(b, id, node, valid, owner);
  }

  lemma {:induction false} PaymentBooked(b: Books, id: nat, node: Signer, valid: Input -> bool, owner: string)
    requires Possible(b, Settle(id, Kernel))
    ensures var t, call :=
              Advance(b, Settle(id, Kernel), node, valid), BillOf(b.clients[id], b.clients[id].phase.items);
            && PaidBy(t, owner) == PaidBy(b, owner) + (if owner == call.tenant then call.paid else 0)
            && t.gained == b.gained + call.paid
  {
  }

  /** Every move, with fresh or stale listings, admitted or refused, keeps the books and the fuel. */
  lemma {:induction false} AdvanceAudited(b: Books, m: Move, node: Signer, valid: Input -> bool)
    requires Audited(b, node) && Possible(b, m) && node.pubkey != ""
    ensures Audited(Advance(b, m, node, valid), node) && SameFuel(Advance(b, m, node, valid), b)
  {
    var t := Advance(b, m, node, valid);
    match m {
      case Arrive(id, tenant, requested) =>
        NotInFlight(b, id, node);
        OthersStaySame(b, t, id, node);
        MovedAudited(b, t, id, node);
        QuietSameFuel(t, b);
      case Look(id, items) =>
        LookAudited(b, id, items, node, valid);
        QuietSameFuel(t, b);
      case Submit(id, hash) =>
        if Accepts(b.s, TxFor(b.clients[id], b.clients[id].phase.items, hash, node), valid) {
          AdmittedAudited(b, id, hash, node, valid);
        } else {
          RefusedChangesNothing(b, id, hash, node, valid);
        }
        QuietSameFuel(t, b);
      case Settle(id, answer) =>
        if answer.Kernel? {
          SealAudited(b, id, node, valid);
          SealSameFuel(b, id, node, valid);
        } else {
          AbandonAudited(b, id, answer, node, valid);
          QuietSameFuel(t, b);
        }
      case Query(keys) =>
        QueryAudited(b, keys, node, valid);
        QuietSameFuel(t, b);
    }
  }

  lemma {:induction false} QueryAudited(b: Books, keys: set<Pointer>, node: Signer, valid: Input -> bool)
    requires Audited(b, node)
    ensures Audited(Advance(b, Query(keys), node, valid), node)
    ensures Commits(Advance(b, Query(keys), node, valid).s) == Commits(b.s)
  {
    var t := Advance(b, Query(keys), node, valid);
    StepDisciplined(b.s, Evict(keys), valid);
    assert Commits(t.s) == Commits(b.s);
    forall k | k in t.clients && t.clients[k].phase.Waiting? ensures WaitingBacked(t, k, node) {
      assert WaitingBacked(b, k, node);
    }
    forall k | k in t.clients && t.clients[k].phase.Holding? ensures HoldingOffered(t, k) {
      assert HoldingOffered(b, k);
    }
  }

  /**
   * Conservation over every interleaving of any number of retry loops, contention and stale
   * listings included: the total unspent fuel is constant, each tenant has lost exactly what its
   * sealed transactions paid, and the treasury has gained it.
   */
  lemma {:induction false} FuelConserved(b: Books, moves: seq<Move>, node: Signer, valid: Input -> bool)
    requires Audited(b, node) && PossibleRun(b, moves, node, valid) && node.pubkey != ""
    ensures Audited(Play(b, moves, node, valid), node) && SameFuel(Play(b, moves, node, valid), b)
    decreases |moves|
  {
    if moves != [] {
      AdvanceAudited(b, moves[0], node, valid);
      FuelConserved(Advance(b, moves[0], node, valid), moves[1..], node, valid);
    }
  }

  // --- Each loop of the run is `_try_consume_with_occ` ----------------------------------------------------------

  ghost predicate RoundGoesOn(c: Client, k: nat, node: Signer)
    requires k < |c.past|
  {
    Round(k, c.tenant, c.requested, c.past[k].seen, c.past[k].outcome, c.past[k].hash, node).None?
  }

  /** Earlier rounds were not decisive; the last one is exactly when the loop has finished, with its report. */
  ghost predicate FollowsLoop(c: Client, node: Signer) {
    if c.phase.Finished? then
      var n := |c.past|;
      && 1 <= n <= MAX_OCC_RETRIES
      && (forall k :: 0 <= k < n - 1 ==> RoundGoesOn(c, k, node))
      && Round(n - 1, c.tenant, c.requested, c.past[n - 1].seen, c.past[n - 1].outcome, c.past[n - 1].hash, node)
         == Some(c.phase.report)
    else
      |c.past| < MAX_OCC_RETRIES && forall k :: 0 <= k < |c.past| ==> RoundGoesOn(c, k, node)
  }

  ghost predicate AllFollow(b: Books, node: Signer) {
    forall id :: id in b.clients ==> FollowsLoop(b.clients[id], node)
  }

  lemma {:induction false} CloseFollows(c: Client, a: Attempt, node: Signer)
    requires FollowsLoop(c, node) && !c.phase.Finished?
    ensures FollowsLoop(Close(c, a, node), node)
  {
    var d := Close(c, a, node);
    forall k | 0 <= k < |c.past| ensures RoundGoesOn(d, k, node) {
      assert RoundGoesOn(c, k, node);
    }
  }

  lemma {:induction false} PhaseFollows(c: Client, phase: Phase, node: Signer)
    requires FollowsLoop(c, node) && !c.phase.Finished? && !phase.Finished?
    ensures FollowsLoop(c.(phase := phase), node)
  {
    forall k | 0 <= k < |c.past| ensures RoundGoesOn(c.(phase := phase), k, node) {
      assert RoundGoesOn(c, k, node);
    }
  }

  lemma {:induction false} AdvanceFollows(b: Books, m: Move, node: Signer, valid: Input -> bool)
    requires AllFollow(b, node) && Possible(b, m)
    ensures AllFollow(Advance(b, m, node, valid), node)
  {
    match m {
      case Arrive(_, _, _) =>
      case Query(_) =>
      case Look(id, items) =>
        var c := b.clients[id];
        CloseFollows(c, Attempt(items, Executed, ""), node);
        PhaseFollows(c, Holding(items), node);
      case Submit(id, hash) =>
        var c := b.clients[id];
        CloseFollows(c, Attempt(c.phase.items, DoubleSpendRefused, hash), node);
        CloseFollows(c, Attempt(c.phase.items, AuthRefused, hash), node);
        PhaseFollows(c, Waiting(c.phase.items, hash), node);
      case Settle(id, answer) =>
        var c := b.clients[id];
        CloseFollows(c, Attempt(c.phase.items, OutcomeOf(answer), c.phase.hash), node);
    }
  }

  /** Along every run each loop goes through its rounds as the code does, and through at most four. */
  lemma {:induction false} LoopsFollow(b: Books, moves: seq<Move>, node: Signer, valid: Input -> bool)
    requires AllFollow(b, node) && PossibleRun(b, moves, node, valid)
    ensures AllFollow(Play(b, moves, node, valid), node)
    decreases |moves|
  {
    if moves != [] {
      AdvanceFollows(b, moves[0], node, valid);
      LoopsFollow(Advance(b, moves[0], node, valid), moves[1..], node, valid);
    }
  }

  /** The oracles say what the loop saw in its rounds. */
  ghost predicate Recounts(c: Client, views: nat -> Items, outcomes: nat -> Outcome, hashes: nat -> string) {
    forall k :: 0 <= k < |c.past| ==>
      views(k) == c.past[k].seen && outcomes(k) == c.past[k].outcome && hashes(k) == c.past[k].hash
  }

  /**
   * A finished loop of a run is an execution of `TryConsume`: on what it saw and was answered, the
   * first decisive round is its last one and reports the same.
   */
  lemma {:induction false} FinishedIsTryConsume(c: Client, k: nat, node: Signer, views: nat -> Items,
                                                outcomes: nat -> Outcome, hashes: nat -> string)
    requires FollowsLoop(c, node) && c.phase.Finished? && Recounts(c, views, outcomes, hashes) && k < |c.past|
    ensures FirstDecisive(k, c.tenant, c.requested, views, outcomes, hashes, node) == Ending(c.phase.report, |c.past|)
    decreases |c.past| - k
  {
    if k < |c.past| - 1 {
      assert RoundGoesOn(c, k, node);
      FinishedIsTryConsume(c, k + 1, node, views, outcomes, hashes);
    }
  }
}
