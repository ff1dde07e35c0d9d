/**
 * The transaction ledger of `PtaAdapter` (arch/bound/adapter/pta.py): reservation of inputs in
 * `_spent_mempool`, sealing, and the speculative `_unfold_pool`, over any interleaving of
 * `execute_transaction` calls in one process.
 */
module PtaLedger {
  import opened Wrappers

  datatype Pointer = Pointer(txHash: string, index: nat)

  datatype Input = Input(pointer: Pointer, signature: string, owner: string)

  /** The executable payload of a `PhaseAnchorOutput`. */
  datatype Payload = Payload(blobRef: string, node: string, meta: map<string, string>, tick: int,
                             stack: Option<seq<string>>)

  datatype Anchor = Anchor(handleId: string, status: string, payload: Payload)

  datatype Output = Output(amount: int, owner: string, asset: string, anchor: Option<Anchor>)

  datatype Tx = Tx(hash: string, inputs: seq<Input>, outputs: seq<Output>)

  function Pointers(tx: Tx): set<Pointer> {
    set i | i in tx.inputs :: i.pointer
  }

  function OutputPointers(tx: Tx): set<Pointer> {
    set i | 0 <= i < |tx.outputs| :: Pointer(tx.hash, i)
  }

  /** The outputs of `tx` under their new pointers. */
  function Produced(tx: Tx): map<Pointer, Output> {
    map p | p in OutputPointers(tx) :: tx.outputs[p.index]
  }

  /** Every input carries an owner address, so none of them skips the reservation check. */
  predicate Signed(tx: Tx) {
    forall i :: i in tx.inputs ==> i.owner != ""
  }

  // --- The step machine --------------------------------------------------------------------

  /**
   * `prior` holds the commits that were on disk when the process started, `sealed` those it
   * sealed itself; `inflight` maps a pending call to its transaction.
   */
  datatype State = State(prior: seq<Tx>, sealed: seq<Tx>, pool: map<Pointer, Output>,
                         mempool: set<Pointer>, inflight: map<nat, Tx>)

  datatype Event =
    | Begin(id: nat, tx: Tx)                 // check and reserve, up to the await
    | Sealed(id: nat)                        // the store returned a kernel
    | Unsealed(id: nat)                      // the store returned None
    | Raised(id: nat)                        // the store raised
    | Evict(keys: set<Pointer>)              // a balance query dropped confirmed entries

  datatype Refusal = DoubleSpend(pointer: Pointer) | AuthFailed(index: nat)

  /** The input loop at the head of `execute_transaction`: the first offending input decides. */
  function Check(inputs: seq<Input>, from: nat, mempool: set<Pointer>, valid: Input -> bool): (r: Option<Refusal>)
    requires from <= |inputs|
    ensures r.None? <==> forall k :: from <= k < |inputs| && inputs[k].owner != "" ==>
      inputs[k].pointer !in mempool && valid(inputs[k])
    decreases |inputs| - from
  {
    if from == |inputs| then None
    else if inputs[from].owner != "" && inputs[from].pointer in mempool then Some(DoubleSpend(inputs[from].pointer))
    else if inputs[from].owner != "" && !valid(inputs[from]) then Some(AuthFailed(from))
    else Check(inputs, from + 1, mempool, valid)
  }

  predicate Accepts(s: State, tx: Tx, valid: Input -> bool) {
    Check(tx.inputs, 0, s.mempool, valid).None?
  }

  function Step(s: State, e: Event, valid: Input -> bool): State {
    match e
    case Begin(id, tx) =>
      if id !in s.inflight && Accepts(s, tx, valid)
      then s.(mempool := s.mempool + Pointers(tx), inflight := s.inflight[id := tx])
      else s
    case Sealed(id) =>
      if id in s.inflight then
        var tx := s.inflight[id];
        s.(sealed := s.sealed + [tx], pool := (s.pool - Pointers(tx)) + Produced(tx), inflight := s.inflight - {id})
      else s
    case Unsealed(id) => Release(s, id)
    case Raised(id) => Release(s, id)
    case Evict(keys) => s.(pool := s.pool - keys)
  }

  function Release(s: State, id: nat): State {
    if id in s.inflight
    then s.(mempool := s.mempool - Pointers(s.inflight[id]), inflight := s.inflight - {id})
    else s
  }

  function Run(s: State, events: seq<Event>, valid: Input -> bool): State
    decreases |events|
  {
    if events == [] then s else Run(Step(s, events[0], valid), events[1..], valid)
  }

  // --- Linear consumption --------------------------------------------------------------------

  ghost predicate ReservedBy(s: State, id: nat, p: Pointer) {
    id in s.inflight && p in Pointers(s.inflight[id])
  }

  ghost predicate SpentAt(s: State, k: nat, p: Pointer) {
    k < |s.sealed| && p in Pointers(s.sealed[k])
  }

  /**
   * No pointer is claimed by two transactions, pending or sealed, and `_spent_mempool` is exactly
   * the set of claimed pointers.
   */
  ghost predicate Exclusive(s: State) {
    && (forall p, i, j :: ReservedBy(s, i, p) && ReservedBy(s, j, p) ==> i == j)
    && (forall p, i, k :: ReservedBy(s, i, p) ==> !SpentAt(s, k, p))
    && (forall p, j, k :: SpentAt(s, j, p) && SpentAt(s, k, p) ==> j == k)
    && (forall p, i :: ReservedBy(s, i, p) ==> p in s.mempool)
    && (forall p, k :: SpentAt(s, k, p) ==> p in s.mempool)
    && (forall p :: p in s.mempool ==> (exists i :: ReservedBy(s, i, p)) || (exists k :: SpentAt(s, k, p)))
  }

  predicate DistinctPointers(inputs: seq<Input>) {
    forall i, j :: 0 <= i < j < |inputs| ==> inputs[i].pointer != inputs[j].pointer
  }

  ghost predicate NoneRepeats(s: State) {
    && (forall i :: i in s.inflight ==> DistinctPointers(s.inflight[i].inputs))
    && (forall k :: 0 <= k < |s.sealed| ==> DistinctPointers(s.sealed[k].inputs))
  }

  /** Linear consumption: no pointer is claimed twice, neither by two transactions nor within one. */
  ghost predicate Linear(s: State) {
    Exclusive(s) && NoneRepeats(s)
  }

  /** How often a list of inputs names a pointer. */
  function Occurrences(inputs: seq<Input>, p: Pointer): nat {
    if inputs == [] then 0
    else Occurrences(inputs[..|inputs| - 1], p) + (if inputs[|inputs| - 1].pointer == p then 1 else 0)
  }

  /** How often sealed transactions consume a pointer, repetitions within one transaction included. */
  function TimesSpent(sealed: seq<Tx>, p: Pointer): nat {
    if sealed == [] then 0
    else TimesSpent(sealed[..|sealed| - 1], p) + Occurrences(sealed[|sealed| - 1].inputs, p)
  }

  lemma {:induction false} OccursOnce(inputs: seq<Input>, p: Pointer)
    ensures Occurrences(inputs, p) > 0 <==> exists i :: 0 <= i < |inputs| && inputs[i].pointer == p
    ensures DistinctPointers(inputs) ==> Occurrences(inputs, p) <= 1
    decreases |inputs|
  {
    if inputs != [] {
      var n := |inputs| - 1;
      OccursOnce(inputs[..n], p);
      if i :| 0 <= i < n && inputs[i].pointer == p { assert inputs[..n][i].pointer == p; }
    }
  }

  lemma {:induction false} SpentOnce(sealed: seq<Tx>, p: Pointer)
    requires forall k :: 0 <= k < |sealed| ==> DistinctPointers(sealed[k].inputs)
    requires forall j, k :: 0 <= j < k < |sealed| ==> p !in Pointers(sealed[j]) || p !in Pointers(sealed[k])
    ensures TimesSpent(sealed, p) > 0 <==> exists k :: 0 <= k < |sealed| && p in Pointers(sealed[k])
    ensures TimesSpent(sealed, p) <= 1
    decreases |sealed|
  {
    if sealed != [] {
      var n := |sealed| - 1;
      SpentOnce(sealed[..n], p);
      OccursOnce(sealed[n].inputs, p);
      assert (exists i :: 0 <= i < |sealed[n].inputs| && sealed[n].inputs[i].pointer == p) <==>
             p in Pointers(sealed[n]);
      if k :| 0 <= k < n && p in Pointers(sealed[k]) { assert p in Pointers(sealed[..n][k]); }
    }
  }

  /** In a linear state every pointer has been consumed at most once, and not at all while it is reserved. */
  lemma LinearSpendsOnce(s: State, p: Pointer)
    requires Linear(s)
    ensures TimesSpent(s.sealed, p) <= 1
    ensures (exists i :: ReservedBy(s, i, p)) ==> TimesSpent(s.sealed, p) == 0
  {
    forall j, k | 0 <= j < k < |s.sealed| ensures p !in Pointers(s.sealed[j]) || p !in Pointers(s.sealed[k]) {
      assert p in Pointers(s.sealed[j]) ==> SpentAt(s, j, p);
      assert p in Pointers(s.sealed[k]) ==> SpentAt(s, k, p);
    }
    SpentOnce(s.sealed, p);
    if k :| 0 <= k < |s.sealed| && p in Pointers(s.sealed[k]) { assert SpentAt(s, k, p); }
  }

  /** The inputs that the reservation check skips do not name a claimed pointer. */
  predicate UnsignedInputsFree(s: State, tx: Tx) {
    forall i :: i in tx.inputs && i.owner == "" ==> i.pointer !in s.mempool
  }

  lemma AcceptedPointersFree(s: State, tx: Tx, valid: Input -> bool)
    requires Accepts(s, tx, valid)
    ensures Pointers(tx) !! s.mempool <==> UnsignedInputsFree(s, tx)
  {
    forall i | i in tx.inputs && i.owner != "" ensures i.pointer !in s.mempool {
      var k :| 0 <= k < |tx.inputs| && tx.inputs[k] == i;
    }
    if !UnsignedInputsFree(s, tx) {
      var i :| i in tx.inputs && i.owner == "" && i.pointer in s.mempool;
      assert i.pointer in Pointers(tx);
    }
  }

  /** An accepted call claims only unclaimed pointers exactly when its unchecked inputs are unclaimed. */
  lemma BeginExclusiveIff(s: State, id: nat, tx: Tx, valid: Input -> bool)
    requires Exclusive(s) && id !in s.inflight && Accepts(s, tx, valid)
    ensures Exclusive(Step(s, Begin(id, tx), valid)) <==> UnsignedInputsFree(s, tx)
  {
    AcceptedPointersFree(s, tx, valid);
    var t := Step(s, Begin(id, tx), valid);
    forall p, i ensures ReservedBy(t, i, p) <==> if i == id then p in Pointers(tx) else ReservedBy(s, i, p) {}
    forall p, k ensures SpentAt(t, k, p) <==> SpentAt(s, k, p) {}
    if UnsignedInputsFree(s, tx) {
      forall p | p in t.mempool ensures (exists i :: ReservedBy(t, i, p)) || (exists k :: SpentAt(t, k, p)) {
        if p in Pointers(tx) { assert ReservedBy(t, id, p); }
        else if i :| ReservedBy(s, i, p) { assert ReservedBy(t, i, p); }
        else { var k :| SpentAt(s, k, p); assert SpentAt(t, k, p); }
      }
    } else {
      var p :| p in Pointers(tx) && p in s.mempool;
      assert ReservedBy(t, id, p);
      if i :| ReservedBy(s, i, p) { assert ReservedBy(t, i, p); }
      else { var k :| SpentAt(s, k, p); assert SpentAt(t, k, p); }
    }
  }

  /** What the check does not look at: unsigned inputs, and a pointer that one transaction lists twice. */
  predicate Clean(s: State, tx: Tx) {
    UnsignedInputsFree(s, tx) && DistinctPointers(tx.inputs)
  }

  /**
   * The exact condition for one call: an accepted transaction keeps consumption linear if and
   * only if the inputs that skip the check name no claimed pointer and no pointer is listed twice.
   */
  lemma BeginLinearIff(s: State, id: nat, tx: Tx, valid: Input -> bool)
    requires Linear(s) && id !in s.inflight && Accepts(s, tx, valid)
    ensures Linear(Step(s, Begin(id, tx), valid)) <==> Clean(s, tx)
  {
    BeginExclusiveIff(s, id, tx, valid);
    var t := Step(s, Begin(id, tx), valid);
    assert t.inflight[id] == tx;
  }

  lemma SealExclusive(s: State, id: nat, valid: Input -> bool)
    requires Exclusive(s) && id in s.inflight
    ensures Exclusive(Step(s, Sealed(id), valid))
  {
    var t, n := Step(s, Sealed(id), valid), |s.sealed|;
    forall p, i ensures ReservedBy(t, i, p) <==> i != id && ReservedBy(s, i, p) {}
    forall p, k ensures SpentAt(t, k, p) <==> if k == n then ReservedBy(s, id, p) else SpentAt(s, k, p) {}
    forall p | p in t.mempool ensures (exists i :: ReservedBy(t, i, p)) || (exists k :: SpentAt(t, k, p)) {
      if i :| ReservedBy(s, i, p) {
        if i == id { assert SpentAt(t, n, p); } else { assert ReservedBy(t, i, p); }
      } else { var k :| SpentAt(s, k, p); assert SpentAt(t, k, p); }
    }
  }

  /** A transaction that is not sealed gives back exactly what it reserved, and nothing else. */
  lemma ReleaseExclusive(s: State, id: nat)
    requires Exclusive(s) && id in s.inflight
    ensures Exclusive(Release(s, id))
    ensures Release(s, id).pool == s.pool && Release(s, id).sealed == s.sealed
    ensures forall p :: p in s.mempool && p !in Release(s, id).mempool <==> p in Pointers(s.inflight[id])
  {
    var t := Release(s, id);
    forall p | p in Pointers(s.inflight[id]) ensures p in s.mempool { assert ReservedBy(s, id, p); }
    forall p, i ensures ReservedBy(t, i, p) <==> i != id && ReservedBy(s, i, p) {}
    forall p, k ensures SpentAt(t, k, p) <==> SpentAt(s, k, p) {}
    forall p, i | ReservedBy(t, i, p) ensures p in t.mempool { assert !ReservedBy(s, id, p); }
    forall p, k | SpentAt(t, k, p) ensures p in t.mempool { assert !ReservedBy(s, id, p); }
    forall p | p in t.mempool ensures (exists i :: ReservedBy(t, i, p)) || (exists k :: SpentAt(t, k, p)) {
      if i :| ReservedBy(s, i, p) { assert i != id; assert ReservedBy(t, i, p); }
      else { var k :| SpentAt(s, k, p); assert SpentAt(t, k, p); }
    }
  }

  lemma StepExclusive(s: State, e: Event, valid: Input -> bool)
    requires Exclusive(s) && (e.Begin? ==> Signed(e.tx))
    ensures Exclusive(Step(s, e, valid))
  {
    match e
    case Begin(id, tx) =>
      if id !in s.inflight && Accepts(s, tx, valid) { BeginExclusiveIff(s, id, tx, valid); }
    case Sealed(id) => if id in s.inflight { SealExclusive(s, id, valid); }
    case Unsealed(id) => if id in s.inflight { ReleaseExclusive(s, id); }
    case Raised(id) => if id in s.inflight { ReleaseExclusive(s, id); }
    case Evict(keys) => EvictExclusive(s, keys, valid);
  }

  lemma EvictExclusive(s: State, keys: set<Pointer>, valid: Input -> bool)
    requires Exclusive(s)
    ensures Exclusive(Step(s, Evict(keys), valid))
  {
    var t := Step(s, Evict(keys), valid);
    forall p, i ensures ReservedBy(t, i, p) <==> ReservedBy(s, i, p) {}
    forall p, k ensures SpentAt(t, k, p) <==> SpentAt(s, k, p) {}
  }

  /** Sealing moves a pending claim to the sealed ones and keeps consumption linear. */
  lemma SealLinear(s: State, id: nat, valid: Input -> bool)
    requires Linear(s) && id in s.inflight
    ensures Linear(Step(s, Sealed(id), valid))
  {
    SealExclusive(s, id, valid);
  }

  /** A transaction that is not sealed keeps consumption linear and gives back exactly what it reserved. */
  lemma ReleaseLinear(s: State, id: nat)
    requires Linear(s) && id in s.inflight
    ensures Linear(Release(s, id))
    ensures Release(s, id).pool == s.pool && Release(s, id).sealed == s.sealed
    ensures forall p :: p in s.mempool && p !in Release(s, id).mempool <==> p in Pointers(s.inflight[id])
  {
    ReleaseExclusive(s, id);
  }

  /** The event starts a call, and the check lets it through. */
  predicate Admitted(s: State, e: Event, valid: Input -> bool) {
    e.Begin? && e.id !in s.inflight && Accepts(s, e.tx, valid)
  }

  /** Every call of the run that the check lets through is clean in the state it meets. */
  ghost predicate CleanRun(s: State, events: seq<Event>, valid: Input -> bool)
    decreases |events|
  {
    events != [] ==>
      && (Admitted(s, events[0], valid) ==> Clean(s, events[0].tx))
      && CleanRun(Step(s, events[0], valid), events[1..], valid)
  }

  ghost predicate LinearThroughout(s: State, events: seq<Event>, valid: Input -> bool)
    decreases |events|
  {
    Linear(s) && (events != [] ==> LinearThroughout(Step(s, events[0], valid), events[1..], valid))
  }

  lemma StepLinearIff(s: State, e: Event, valid: Input -> bool)
    requires Linear(s)
    ensures Linear(Step(s, e, valid)) <==> (Admitted(s, e, valid) ==> Clean(s, e.tx))
  {
    match e
    case Begin(id, tx) => if Admitted(s, e, valid) { BeginLinearIff(s, id, tx, valid); }
    case Sealed(id) => if id in s.inflight { SealLinear(s, id, valid); }
    case Unsealed(id) => if id in s.inflight { ReleaseLinear(s, id); }
    case Raised(id) => if id in s.inflight { ReleaseLinear(s, id); }
    case Evict(keys) => EvictExclusive(s, keys, valid);
  }

  /**
   * The exact condition for a run: over every interleaving, consumption is linear in every state
   * if and only if each admitted call is clean in the state it meets.
   */
  lemma {:induction false} LinearThroughoutIff(s: State, events: seq<Event>, valid: Input -> bool)
    requires Linear(s)
    ensures LinearThroughout(s, events, valid) <==> CleanRun(s, events, valid)
    ensures LinearThroughout(s, events, valid) ==> Linear(Run(s, events, valid))
    decreases |events|
  {
    if events != [] {
      StepLinearIff(s, events[0], valid);
      if Linear(Step(s, events[0], valid)) {
        LinearThroughoutIff(Step(s, events[0], valid), events[1..], valid);
      }
    }
  }

  /** Every transaction begun in `events` is owner-signed and lists no pointer twice. */
  ghost predicate AllSignedDistinct(events: seq<Event>) {
    forall e :: e in events && e.Begin? ==> Signed(e.tx) && DistinctPointers(e.tx.inputs)
  }

  lemma {:induction false} SignedDistinctClean(s: State, events: seq<Event>, valid: Input -> bool)
    requires AllSignedDistinct(events)
    ensures CleanRun(s, events, valid)
    decreases |events|
  {
    if events != [] {
      assert events[0] in events;
      SignedDistinctClean(Step(s, events[0], valid), events[1..], valid);
    }
  }

  /**
   * No double spend: over every interleaving of owner-signed calls that list no pointer twice,
   * pending reservations are pairwise disjoint, and every pointer is an input of sealed
   * transactions at most once in total, and of none while it is reserved.
   */
  lemma {:induction false} NoDoubleSpend(s: State, events: seq<Event>, valid: Input -> bool)
    requires Linear(s) && AllSignedDistinct(events)
    ensures Linear(Run(s, events, valid))
    ensures forall p :: TimesSpent(Run(s, events, valid).sealed, p) <= 1
    ensures forall i, p :: ReservedBy(Run(s, events, valid), i, p) ==> TimesSpent(Run(s, events, valid).sealed, p) == 0
  {
    SignedDistinctClean(s, events, valid);
    LinearThroughoutIff(s, events, valid);
    forall p ensures TimesSpent(Run(s, events, valid).sealed, p) <= 1 {
      LinearSpendsOnce(Run(s, events, valid), p);
    }
    forall i, p | ReservedBy(Run(s, events, valid), i, p) ensures TimesSpent(Run(s, events, valid).sealed, p) == 0 {
      LinearSpendsOnce(Run(s, events, valid), p);
    }
  }

  /**
   * Once a sealed transaction has spent an output, no run brings back a state that admits another
   * transaction with an owner-signed input for it.
   */
  lemma {:induction false} SpentStaysRefused(s: State, events: seq<Event>, valid: Input -> bool, k: nat, i: Input,
                                             tx: Tx)
    requires Linear(s) && CleanRun(s, events, valid) && SpentAt(s, k, i.pointer)
    requires i in tx.inputs && i.owner != ""
    ensures !Accepts(Run(s, events, valid), tx, valid)
    decreases |events|
  {
    if events == [] {
      var n :| 0 <= n < |tx.inputs| && tx.inputs[n] == i;
      assert i.pointer in s.mempool;
    } else {
      StepLinearIff(s, events[0], valid);
      assert SpentAt(Step(s, events[0], valid), k, i.pointer);
      SpentStaysRefused(Step(s, events[0], valid), events[1..], valid, k, i, tx);
    }
  }

  /** A fresh process starts linear, whatever is already on disk. */
  lemma FreshProcessLinear(prior: seq<Tx>)
    ensures Linear(State(prior, [], map[], {}, map[]))
  {
  }

  /** A call that is not sealed undoes itself, exactly when its unchecked inputs were unclaimed. */
  lemma AbandonedCallUndone(s: State, id: nat, tx: Tx, valid: Input -> bool)
    requires id !in s.inflight && Accepts(s, tx, valid)
    ensures Step(Step(s, Begin(id, tx), valid), Unsealed(id), valid) == s <==> UnsignedInputsFree(s, tx)
    ensures Step(Step(s, Begin(id, tx), valid), Raised(id), valid) == s <==> UnsignedInputsFree(s, tx)
  {
    AcceptedPointersFree(s, tx, valid);
    assert s.inflight[id := tx] - {id} == s.inflight;
    assert Pointers(tx) !! s.mempool <==> s.mempool + Pointers(tx) - Pointers(tx) == s.mempool;
  }

  // --- The two ways to spend an output twice ------------------------------------------------------

  /** One commit on disk that mints 10 units at pointer ("mint", 0). */
  function Minted(): State {
    State([Tx("mint", [], [Output(10, "o", "fuel", None)])], [], map[], {}, map[])
  }

  const MINT := Pointer("mint", 0)

  /** A call that is begun and sealed before anything else happens. */
  function WholeCall(id: nat, tx: Tx): seq<Event> {
    [Begin(id, tx), Sealed(id)]
  }

  function AfterCall(s: State, id: nat, tx: Tx, valid: Input -> bool): State {
    Step(Step(s, Begin(id, tx), valid), Sealed(id), valid)
  }

  lemma RunCall(s: State, id: nat, tx: Tx, rest: seq<Event>, valid: Input -> bool)
    ensures Run(s, WholeCall(id, tx) + rest, valid) == Run(AfterCall(s, id, tx, valid), rest, valid)
  {
    var events := WholeCall(id, tx) + rest;
    assert events[0] == Begin(id, tx) && events[1..][0] == Sealed(id) && events[1..][1..] == rest;
  }

  lemma CallSeals(s: State, id: nat, tx: Tx, valid: Input -> bool)
    requires id !in s.inflight && Accepts(s, tx, valid)
    ensures var t := AfterCall(s, id, tx, valid);
            t.sealed == s.sealed + [tx] && t.inflight == s.inflight && t.mempool == s.mempool + Pointers(tx)
  {
    assert s.inflight[id := tx] - {id} == s.inflight;
  }

  lemma CallExclusive(s: State, id: nat, tx: Tx, valid: Input -> bool)
    requires Exclusive(s) && id !in s.inflight && Accepts(s, tx, valid) && UnsignedInputsFree(s, tx)
    ensures Exclusive(AfterCall(s, id, tx, valid))
  {
    BeginExclusiveIff(s, id, tx, valid);
    SealExclusive(Step(s, Begin(id, tx), valid), id, valid);
  }

  lemma SpentSnoc(sealed: seq<Tx>, tx: Tx, p: Pointer)
    ensures TimesSpent(sealed + [tx], p) == TimesSpent(sealed, p) + Occurrences(tx.inputs, p)
  {
    assert (sealed + [tx])[..|sealed|] == sealed;
  }

  lemma OccurrencesSnoc(inputs: seq<Input>, i: Input, p: Pointer)
    ensures Occurrences(inputs + [i], p) == Occurrences(inputs, p) + (if i.pointer == p then 1 else 0)
  {
    assert (inputs + [i])[..|inputs|] == inputs;
  }

  /** Spends the minted output with the given inputs. */
  function Spend(hash: string, inputs: seq<Input>, amount: int): Tx {
    Tx(hash, inputs, [Output(amount, "q", "fuel", None)])
  }

  lemma MintedLinear()
    ensures Linear(Minted()) && MINT in Produced(Minted().prior[0])
  {
    assert MINT in OutputPointers(Minted().prior[0]);
  }

  /** Without an owner address the check is skipped: two sealed transactions may spend one output. */
  lemma UnsignedTwice(s: State, i: Input, b: Tx, c: Tx, valid: Input -> bool)
    requires s.inflight == map[] && i.owner == "" && b.inputs == [i] && c.inputs == [i]
    ensures var t := Run(s, WholeCall(0, b) + WholeCall(1, c), valid);
            && t.sealed == s.sealed + [b] + [c]
            && TimesSpent(t.sealed, i.pointer) == TimesSpent(s.sealed, i.pointer) + 2
  {
    RunCall(s, 0, b, WholeCall(1, c), valid);
    CallSeals(s, 0, b, valid);
    var r := AfterCall(s, 0, b, valid);
    assert WholeCall(1, c) == WholeCall(1, c) + [];
    RunCall(r, 1, c, [], valid);
    CallSeals(r, 1, c, valid);
    assert [] + [i] == [i];
    OccurrencesSnoc([], i, i.pointer);
    SpentSnoc(s.sealed, b, i.pointer);
    SpentSnoc(s.sealed + [b], c, i.pointer);
  }

  /** An input of a minted output, without owner address, is sealed in two transactions. */
  lemma UnsignedDoubleSpend(valid: Input -> bool)
    ensures var i := Input(MINT, "", "");
            var b, c := Spend("b", [i], 10), Spend("c", [i], 10);
            var t := Run(Minted(), WholeCall(0, b) + WholeCall(1, c), valid);
            && Linear(Minted()) && MINT in Produced(Minted().prior[0])
            && t.sealed == [b, c] && MINT in Pointers(b) && MINT in Pointers(c) && TimesSpent(t.sealed, MINT) == 2
  {
    var i := Input(MINT, "", "");
    var b, c := Spend("b", [i], 10), Spend("c", [i], 10);
    MintedLinear();
    UnsignedTwice(Minted(), i, b, c, valid);
    assert [] + [b] + [c] == [b, c] && i in b.inputs && i in c.inputs;
  }

  lemma RepeatedCounts(sealed: seq<Tx>, i: Input, tx: Tx)
    requires tx.inputs == [i, i]
    ensures TimesSpent(sealed + [tx], i.pointer) == TimesSpent(sealed, i.pointer) + 2
    ensures !DistinctPointers(tx.inputs)
  {
    assert [] + [i] == [i] && [i] + [i] == [i, i];
    OccurrencesSnoc([], i, i.pointer);
    OccurrencesSnoc([i], i, i.pointer);
    SpentSnoc(sealed, tx, i.pointer);
    assert tx.inputs[0].pointer == tx.inputs[1].pointer;
  }

  /** A signed call that lists an unclaimed pointer twice is sealed and consumes it twice. */
  lemma RepeatedOnce(s: State, i: Input, tx: Tx, valid: Input -> bool)
    requires Exclusive(s) && s.inflight == map[] && i.pointer !in s.mempool
    requires i.owner != "" && valid(i) && tx.inputs == [i, i]
    ensures var t := Run(s, WholeCall(0, tx), valid);
            && t.sealed == s.sealed + [tx] && Exclusive(t) && !Linear(t)
            && TimesSpent(t.sealed, i.pointer) == TimesSpent(s.sealed, i.pointer) + 2
  {
    var t := AfterCall(s, 0, tx, valid);
    assert WholeCall(0, tx) == WholeCall(0, tx) + [];
    RunCall(s, 0, tx, [], valid);
    CallSeals(s, 0, tx, valid);
    CallExclusive(s, 0, tx, valid);
    RepeatedCounts(s.sealed, i, tx);
    assert !NoneRepeats(t) by { assert t.sealed[|s.sealed|] == tx; }
  }

  /** The same for the minted output: 10 units are consumed as 20. */
  lemma RepeatedInputDoubleSpend(valid: Input -> bool, i: Input)
    requires i.pointer == MINT && i.owner != "" && valid(i)
    ensures var tx := Spend("b", [i, i], 20);
            var t := Run(Minted(), WholeCall(0, tx), valid);
            && Linear(Minted()) && Signed(tx) && Admitted(Minted(), Begin(0, tx), valid)
            && UnsignedInputsFree(Minted(), tx)
            && t.sealed == [tx] && Exclusive(t) && !Linear(t) && TimesSpent(t.sealed, MINT) == 2
  {
    var tx := Spend("b", [i, i], 20);
    MintedLinear();
    RepeatedOnce(Minted(), i, tx, valid);
    assert [] + [tx] == [tx];
  }
}
