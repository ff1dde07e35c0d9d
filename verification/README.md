# Verified model of the xphi core

This project models the parts of xphi whose correctness depends on whole runs, interleavings or
graphs, and proves what they promise:

- **The PTA ledger** (`PtaLedger`, `PtaTotals`, `PtaBalance`, `PtaAdapter`, `FuelConsume`, `FuelRuns`): an
  unspent-output ledger with a speculative cache, as a step machine over any number of suspended
  `execute_transaction` calls. A call is one step up to its await (check and reserve), then one of
  Sealed, Unsealed or Raised. Proved: no double spend, exact undo, the cached balance refines the full
  scan, conservation of fuel over every interleaving of retry loops that read listings, submit them
  later and wait for the store.
- **The branch runtime** (`CompactBlob`, `DagAnalysis`, `CallStack`, `FuelSlices`, `BranchCursors`,
  `BranchRuntime`, `StreamIds`, `CursorRestore`, `JoinBarrier`, `QueueBooks`, `QueueDriver`, `TraversalLedger`,
  `QueueStreams`, `StreamCollision`): back-edge analysis by depth-first
  search, the call-stack encoding, fuel slicing, the commit engine over cursors, restoring a cursor
  from the ledger, the join barrier, the bounded queue driver, and the driver's account joined with the
  ledger: what a traversal commits is a sealed run on distinct live anchors, so its fuel is conserved. `fsm.wasm` is a step function with
  the contract "remaining fuel = fuel - step cost" and the target rules of `_resolve_target`.
- **The anchor store and its drivers** (`AnchorStore`, `Lex`, `AnchorDriver`): a content-addressed
  store with mutable heads whose commits form parent-hash chains, over byte-ordered prefix scans.
- **The FSM compiler front end** (`FsmCompiler`): schema to signature to compact blob, and what the
  runtime analyser reads back.
- **The resource lock manager** (`LockManager`): reference-counted re-entrant locks that are deleted
  and recreated, under any interleaving with timeouts.
- **Identifiers and epochs** (`Bits`, `IdGenerators`, `EpochHistory`): bit-packed identifiers with run-level
  guarantees, and a bounded window that must agree with a full history.

Code that updates state in place is modelled by classes whose methods are proved equal to a step
function; the promises over runs are lemmas about that step function. `MapSums`, `Sequences` and
`Wrappers` hold shared helpers.

Where a promise does not hold of the code on all inputs, the model keeps the code, one lemma gives a
concrete input and another the exact condition:

| promise | fails when | exact condition | concrete input |
|---|---|---|---|
| an output is spent once by a process | an input without owner address names a claimed output, or one transaction lists an output twice | `BeginLinearIff`, `LinearThroughoutIff` | `UnsignedDoubleSpend`, `RepeatedInputDoubleSpend` |
| a fork hands out exactly its fuel | the ratios beyond the last target earn a non-zero sum of whole units: more burns fuel, less mints it | `HandsOutAllIff`, `ForkConservesIff` | `ThreeRatiosTwoTargets`, `NegativeRatioMints` |
| no branch gets negative fuel | the ratio of a target but the first earns -1 or less, or the ratios but the first, surplus ones included, together earn more than the total | `HandedOutNonNegativeIff`, `ChildrenNonNegativeIff`, `NoDebtThroughoutIff` | `NegativeRatioNegativeShare` |
| a merge keeps the fuel | a cursor that carries fuel is listed twice | `MergeConservesIff` | `DoubledCursorMints` |
| every chain reaches genesis | a head is set to, or a commit based on, a hash that is neither "genesis" nor a stored commit | `ChainsAlwaysReachGenesis`, `SetHeadIff`, `PutIff` | `DanglingHead` |
| the analyser reads the schema's edges | a state is named like a reserved token that is used as a target, or a default is "" | `ReadsBackIff` | `StateNamedEnd` |
| identifiers increase | the clock is still behind after the short sleep | `RunIncreasingIff` | `ClockBehindRepeats` |
| `resolve` knows the latest state | the name is the anchor's own and the last three epochs do not record it | `AnchorResolveIff` | `AnchorForgotten` |
| the join barrier turns no cursor away | a cursor reaches a join node at which its stream already waits | `NobodyTurnedAwayIff` | `StreamIdTwice` |
| no live stream id is the same as, or named below, another | a merge goes back to a stream that a cursor which stays is below or above | `MergeKeepsFreeIff`, `FreeAlongIff` | `MergeNotAlone` |
| a call frame is read back | the blob name contains '#' | `FrameRoundTrip` | `HashInBlobName` |

One promise has a sufficient condition and a counterexample: locks never deadlock as long as every call
asks only for keys that its thread holds already or that lie above all it holds (`NoWaitCycle`,
`SomeThreadProceeds`, `EverybodyLeaves`); for every two distinct keys there is a deadlock in which exactly
one call is out of that order (`NestedCallsDeadlock`).

## Model

| member | source | states |
|---|---|---|
| PtaLedger.Check | arch/bound/adapter/pta.py:256-266 | the input loop accepts a transaction if and only if every input with an owner address is unclaimed and validly signed; the first offending input decides the refusal |
| PtaLedger.BeginLinearIff | arch/bound/adapter/pta.py:253-272 | one accepted call keeps consumption linear (no pointer claimed twice by two transactions or within one, the mempool exactly the claimed pointers) if and only if its unchecked inputs name no claimed pointer and it lists no pointer twice |
| PtaLedger.SealLinear | arch/bound/adapter/pta.py:288-301 | sealing a pending call keeps consumption linear |
| PtaLedger.ReleaseLinear | arch/bound/adapter/pta.py:281-286 | a call that raises or stays unsealed gives back exactly its own reservations, and the pool and the sealed commits are unchanged |
| PtaLedger.LinearThroughoutIff | arch/bound/adapter/pta.py:253-310 | over every interleaving, consumption is linear in every state if and only if each admitted call is clean in that sense in the state it meets |
| PtaLedger.NoDoubleSpend | arch/bound/adapter/pta.py:253-310 | over every interleaving of owner-signed calls that list no pointer twice, no pointer is consumed more than once by sealed transactions, counted with multiplicity, and none that is reserved has been consumed |
| PtaLedger.SpentStaysRefused | arch/bound/adapter/pta.py:256-272 | once a sealed transaction has spent an output, no later state of the run admits another owner-signed input for it |
| PtaLedger.FreshProcessLinear | arch/bound/adapter/pta.py:198-208 | a new process starts linear whatever is already on disk |
| PtaLedger.AbandonedCallUndone | arch/bound/adapter/pta.py:281-308 | begin followed by unsealed (or raised) is the identity on the whole state if and only if the unchecked inputs were unclaimed |
| PtaLedger.UnsignedDoubleSpend | arch/bound/adapter/pta.py:257 | counterexample: without an owner address, an output minted on disk is an input of two sealed transactions |
| PtaLedger.RepeatedInputDoubleSpend | arch/bound/adapter/pta.py:256-272 | counterexample: a signed call that lists a minted output twice is admitted, sealed, and consumes it twice |
| PtaTotals.SealedUnspent | state/anchor/oracle.py:98-149 | sealing a funded transaction with a fresh hash removes exactly its inputs from the unspent set and adds exactly its outputs |
| PtaTotals.SealedTotal | state/anchor/oracle.py:98-156 | sealing changes the unspent total of every selection of outputs by exactly outputs minus consumed inputs |
| PtaTotals.ConsumedTotal | state/anchor/oracle.py:98-149 | for distinct inputs, what the ledger loses is what the transaction lists |
| PtaBalance.ListsWorth | state/anchor/oracle.py:151-156 | adding up a listing gives the worth of what it lists, in any order |
| PtaBalance.CandidatesExact | state/anchor/oracle.py:98-149 | the candidate dictionary of the scan holds exactly the produced outputs of the owner and asset |
| PtaBalance.ConfirmedExact | state/anchor/oracle.py:98-149 | the oracle reports exactly the unspent outputs of the owner and asset |
| PtaBalance.AvailableExact | arch/bound/adapter/pta.py:342-369 | in disciplined states what the adapter offers is exactly what the ledger holds unspent and nobody reserved |
| PtaBalance.StepDisciplined | arch/bound/adapter/pta.py:253-310 | every step of a caller that uses fresh hashes and existing unspent outputs keeps the ledger and the cache consistent |
| PtaBalance.RunDisciplined | arch/bound/adapter/pta.py:253-310 | the same over every run |
| PtaBalance.FreshProcessDisciplined | arch/bound/adapter/pta.py:198-208 | a process that starts on a consistent ledger starts consistent |
| PtaBalance.QuiescentBalance | arch/bound/adapter/pta.py:312-369 | along every orderly run, whenever no call is pending, the cached balance equals the oracle's full scan for every owner and asset |
| PtaAdapter.GetUnspentOutputs | state/anchor/oracle.py:98-149 | the scanning loop lists every confirmed unspent output exactly once |
| PtaAdapter.DropSpent | state/anchor/oracle.py:145-149 | the final comprehension lists exactly the candidates that no commit spends |
| PtaAdapter.CollectOutputs | state/anchor/oracle.py:128-137 | one commit adds exactly its selected outputs to the candidates |
| PtaAdapter.CollectSpent | state/anchor/oracle.py:120-126 | one commit adds exactly its input pointers to the spent set |
| PtaAdapter.ConfirmedSums | arch/bound/adapter/pta.py:312-340 | confirmed sum minus locally spent sum is the sum of the unreserved items |
| PtaAdapter.Unreserved | arch/bound/adapter/pta.py:342-369 | the listing keeps exactly the items nobody reserved, in order |
| PtaAdapter.AvailableParts | arch/bound/adapter/pta.py:312-369 | the confirmed and the speculative part together list what is available, so both queries agree |
| PtaAdapter.Adapter.constructor | arch/bound/adapter/pta.py:202-209 | a new adapter over the commits on disk has empty pools |
| PtaAdapter.Adapter.Reserve | arch/bound/adapter/pta.py:256-272 | the code before the await is the Begin step: check every input, then reserve all, or refuse and change nothing |
| PtaAdapter.Adapter.Settle | arch/bound/adapter/pta.py:288-301 | the continuation after a seal is the Sealed step: pool entries of the inputs go, outputs come |
| PtaAdapter.Adapter.Abandon | arch/bound/adapter/pta.py:281-308 | the continuation after an exception or None releases the reservations |
| PtaAdapter.Adapter.EvictConfirmed | arch/bound/adapter/pta.py:322-327 | both queries evict exactly the confirmed entries from the pool |
| PtaAdapter.Adapter.GetBalance | arch/bound/adapter/pta.py:312-340 | the balance is the worth of the available outputs, with the evictions of `get_available_inputs` |
| PtaAdapter.Adapter.GetAvailableInputs | arch/bound/adapter/pta.py:342-369 | the listing holds each available output once, adds up to the balance and makes the same evictions |
| FuelConsume.BuildTx | node/rpc/handler/fuel.py:50-80 | the selection loop builds the specified transaction and pays min(requested, available) > 0 |
| FuelConsume.SelectionCovers | node/rpc/handler/fuel.py:50-69 | the selection covers the bill with as few leading items as possible |
| FuelConsume.SelectionBalances | node/rpc/handler/fuel.py:50-80 | the outputs (change and treasury) add up to exactly the selected inputs |
| FuelConsume.TryConsume | node/rpc/handler/fuel.py:40-95 | the retry loop reports its first decisive round, whatever its rounds see and however they end |
| FuelConsume.DecidesWithinFour | node/rpc/handler/fuel.py:40-95 | that round is one of the first four, no earlier one was decisive, and its report is the ending |
| FuelConsume.ConsumptionBacked | node/rpc/handler/fuel.py:41-83 | a round whose selected items are unspent and unclaimed spends only distinct existing unspent fuel of the tenant, and balances |
| FuelConsume.AdmittedIff | node/rpc/handler/fuel.py:56-69 | a transaction built from any listing is owner-signed, and passes the reservation check if and only if nobody claims an item it selected |
| FuelConsume.BillMovesFuel | node/rpc/handler/fuel.py:71-80 | one sealed consumption takes its payment from the tenant, gives it to the treasury and touches no other owner |
| FuelConsume.BillKeepsFuel | node/rpc/handler/fuel.py:71-80 | one sealed consumption keeps the total unspent fuel |
| FuelRuns.OpeningBooks | node/rpc/handler/fuel.py:24-40 | books opened on a quiet consistent ledger balance |
| FuelRuns.UnclaimedStillUnspent | node/rpc/handler/fuel.py:41-69 | an output offered at any earlier moment of the process that is unclaimed now is still unspent |
| FuelRuns.OnceOfferedStays | node/rpc/handler/fuel.py:41-69 | a listing read earlier stays one that was offered when another loop's transaction is sealed |
| FuelRuns.AdmittedOffered | node/rpc/handler/fuel.py:41-85 | if a submission built from a listing of any earlier moment is admitted, all items it selected are unspent now |
| FuelRuns.AdmittedBacked | node/rpc/handler/fuel.py:41-85 | such a submission is backed by the ledger as it is now, however old its listing |
| FuelRuns.RefusedChangesNothing | node/rpc/handler/fuel.py:85-95 | a refused submission leaves the whole ledger state as it was and the books balanced |
| FuelRuns.AdvanceAudited | node/rpc/handler/fuel.py:40-95 | every move of any interleaving (a loop arrives, reads, submits a fresh or stale listing, is answered; a query evicts) keeps the books, each owner's fuel corrected by its payments, and the total |
| FuelRuns.FuelConserved | node/rpc/handler/fuel.py:40-95 | over every interleaving of any number of retry loops, contention and stale listings included, total fuel is constant, tenants lose exactly what their sealed transactions paid and the treasury gains it |
| FuelRuns.LoopsFollow | node/rpc/handler/fuel.py:40-95 | along every run each loop goes through at most four rounds, and reports exactly at its first decisive one |
| FuelRuns.FinishedIsTryConsume | node/rpc/handler/fuel.py:40-95 | a finished loop of a run ends as `TryConsume` does on what it read and was answered |
| Lex.LtTransitive | arch/contract/protocol/executor.py:176 | the order of strings is transitive |
| Lex.LtTotal | arch/contract/protocol/executor.py:176 | the order of strings is total |
| Lex.SortedKeys | arch/contract/protocol/executor.py:176 | sorting a set gives a strictly ascending listing of exactly its members |
| Lex.SortedUnique | state/anchor/driver.py:263-272 | a set has only one strictly sorted listing |
| LockManager.StepKeeps | arch/contract/protocol/executor.py:151-196 | every critical section and acquisition keeps the invariant: reference counts are holders plus waiters, each live key has one lock object owned as the threads say, waiters wait on the current object |
| LockManager.LeaveOwns | arch/contract/protocol/executor.py:158-163 | when a key is released its lock exists and is owned by the releasing thread, so the release cannot fail |
| LockManager.MutualExclusion | arch/contract/protocol/executor.py:144-196 | over every interleaving with timeouts and nesting at most one thread holds a key, although lock objects are deleted and recreated |
| LockManager.EmptyIffUnused | arch/contract/protocol/executor.py:164-168 | both dictionaries have the same keys, and are empty if and only if no thread holds or waits for anything |
| LockManager.NoWaitCycle | arch/contract/protocol/executor.py:174-196 | calls that ask only for keys their thread holds already or that lie above all it holds never wait in a circle |
| LockManager.NonNestedOrdered | arch/contract/protocol/executor.py:174-196 | runs without nested calls, or with nested calls for held keys only, satisfy that condition |
| LockManager.SomeThreadProceeds | arch/contract/protocol/executor.py:174-196 | in such runs, without any timeout, while some thread is inside a call some thread can take its next step |
| LockManager.EverybodyLeaves | arch/contract/protocol/executor.py:174-196 | from any state of such a run, once no new call starts and nobody times out, every thread is outside after exactly as many steps as there was work left, whatever the scheduler does, and no step is possible exactly then |
| LockManager.OrderedIff | arch/contract/protocol/executor.py:174-196 | a run satisfies the condition if and only if none of its calls is out of order |
| LockManager.NestedCallsDeadlock | arch/contract/protocol/executor.py:174-196 | counterexample: for every two distinct keys, two nested calls in opposite order wait for each other, and exactly one call of that run is out of order |
| LockManager.ResourceLockManager.constructor | arch/contract/protocol/executor.py:145-149 | a new manager satisfies the invariant |
| LockManager.ResourceLockManager.GetLock | arch/contract/protocol/executor.py:151-156 | `_get_lock` is the Get step and returns the current lock object of the key |
| LockManager.ResourceLockManager.DropReference | arch/contract/protocol/executor.py:184-188 | one reference less; the last one deletes the lock object |
| LockManager.ResourceLockManager.GiveUp | arch/contract/protocol/executor.py:183-189 | the timeout branch is the Timeout step |
| LockManager.ResourceLockManager.Unlock | arch/contract/protocol/executor.py:159-168 | the critical section exits the lock object, drops one reference and deletes both entries with the last one |
| LockManager.ResourceLockManager.ReleaseLock | arch/contract/protocol/executor.py:158-168 | `_release_lock` is the Leave step |
| AnchorStore.ChainUnique | state/anchor/store.py:47-54 | a hash has at most one parent chain |
| AnchorStore.ChainHasNoCycle | state/anchor/store.py:47-54 | a chain that reaches "genesis" never meets the same commit twice |
| AnchorStore.RootedIff | state/anchor/store.py:98-121 | in a reachable store a hash has a chain to "genesis" if and only if it is "genesis" or a stored commit |
| AnchorStore.PutKeeps | state/anchor/store.py:98-105 | writing an object under its hash keeps every chain and changes no stored object |
| AnchorStore.PutIff | state/anchor/store.py:98-105 | storing an object keeps every chain reaching "genesis" if and only if a stored commit's parent has such a chain |
| AnchorStore.SetHeadIff | state/anchor/store.py:110-115 | setting a head keeps every chain reaching "genesis" if and only if the new head is "genesis" or a stored commit |
| AnchorStore.SealKeeps | state/anchor/store.py:148-177 | a seal keeps the invariant, changes no stored object and stores its commit |
| AnchorStore.SealExtendsOneChain | state/anchor/store.py:148-177 | a seal extends its stream's chain by exactly one commit carrying the payload and leaves every other head and chain as it was |
| AnchorStore.ChainsAlwaysReachGenesis | state/anchor/store.py:98-177 | over every run every stored commit and every head reach "genesis" in every state if and only if heads are set to, and commits based on, stored commits or "genesis"; then stored objects never change and chains have no cycle |
| AnchorStore.DanglingHead | state/anchor/store.py:110-115 | counterexample: a head set to a hash under which nothing is stored reaches nothing |
| AnchorStore.VerifyKernelLineage | state/anchor/oracle.py:158-195 | the walk returns the first min(depth, length) commits of the chain if they pass parity, stops at the first that does not, and reports genesis only for rooted hashes |
| AnchorStore.SealerStore.constructor | state/anchor/store.py:73-86 | an empty store is sound |
| AnchorStore.SealerStore.PutObject | state/anchor/store.py:98-105 | any object is written once under its hash and never overwritten; the store stays sound exactly when a commit's parent is rooted |
| AnchorStore.SealerStore.SetHeadTo | state/anchor/store.py:110-115 | the store accepts any head and stays sound exactly for stored commits and "genesis" |
| AnchorStore.SealerStore.HeadIsStored | state/anchor/store.py:117-121 | in a sound store a head that is returned is "genesis" or a stored commit, and its chain reaches "genesis" |
| AnchorStore.SealerStore.ProposeAndSeal | state/anchor/store.py:148-177 | the SEALER branch is the seal step and returns the new head |
| AnchorDriver.Strinc | state/anchor/driver.py:20-28 | computes the least upper bound of all extensions; fails exactly for prefixes of 0xFF bytes only |
| AnchorDriver.PrefixIsRange | state/anchor/driver.py:20-28 | a byte key starts with a prefix if and only if prefix <= key < _strinc(prefix) |
| AnchorDriver.PrefixContiguous | state/anchor/driver.py:156-164 | past the keys with a prefix, the prefix never comes back, so breaking off loses nothing |
| AnchorDriver.PrefixOrder | state/anchor/driver.py:228-232 | adding a subspace prefix keeps the order of keys |
| AnchorDriver.ScansAgree | state/anchor/driver.py:156-273 | any two ways of producing the sorted filter by prefix yield the same sequence |
| AnchorDriver.SeekScan | state/anchor/driver.py:156-164 | seek then break yields exactly the pairs with the prefix, in key order |
| AnchorDriver.RangeScan | state/anchor/driver.py:263-273 | the sorted keys between a prefix and its _strinc are exactly the pairs with the prefix, in key order |
| AnchorDriver.FdbAnchorDriver.constructor | state/anchor/driver.py:185-204 | the emulated driver starts empty under its subspace |
| AnchorDriver.FdbAnchorDriver.Get | state/anchor/driver.py:234-241 | reads the logical contents of the subspace |
| AnchorDriver.FdbAnchorDriver.Put | state/anchor/driver.py:243-256 | updates the logical contents at exactly one key |
| AnchorDriver.FdbAnchorDriver.ScanPrefix | state/anchor/driver.py:258-273 | yields the logical pairs with the prefix, in key order, subspace removed |
| AnchorDriver.FdbAnchorDriver.StripScan | state/anchor/driver.py:231-232 | removing the subspace prefix turns the raw scan into the logical one |
| AnchorDriver.SeekIterator.Seek | state/anchor/driver.py:40-43 | the cursor stands on the first pair of the scan with the rest pending |
| AnchorDriver.SeekIterator.Next | state/anchor/driver.py:53-63 | advances by exactly one pair |
| AnchorDriver.CursorScan | state/anchor/oracle.py:105-139 | the loop "seek, while valid, break on another prefix" over the generator cursor reads back exactly the scan |
| CompactBlob.Successors | node/runtime/phase.py:50-72 | the adjacency of a blob never leaves its nodes |
| CompactBlob.RuleTargetsMembers | node/runtime/phase.py:58-60 | the targets of a rule list are exactly the targets its rules name |
| DagAnalysis.AddTargets | node/runtime/phase.py:69-72 | one node adds exactly its targets that are nodes to both edge maps, which stay each other's reverse |
| DagAnalysis.ReadEdges | node/runtime/phase.py:50-72 | the first loop yields exactly the blob's adjacency and its reverse |
| DagAnalysis.Search.constructor | node/runtime/phase.py:74-75 | every node starts white and no edge is cut |
| DagAnalysis.Search.Visit | node/runtime/phase.py:77-84 | a visit turns exactly white nodes reachable from it black, terminates, and keeps the search invariant |
| DagAnalysis.Search.Look | node/runtime/phase.py:79-83 | one turn of the successor loop cuts the edge to a grey node, visits a white one, and leaves every looked-at edge cut or finished |
| DagAnalysis.Search.Finish | node/runtime/phase.py:84 | turning a node black keeps the finishing order falling along uncut edges |
| DagAnalysis.RankFalls | node/runtime/phase.py:77-87 | along uncut edges the finishing rank strictly falls |
| DagAnalysis.FinishedAcyclic | node/runtime/phase.py:77-87 | without the cut edges no closed walk starts at a finished node |
| DagAnalysis.FinishedClosed | node/runtime/phase.py:77-87 | finished nodes are closed under reachability |
| DagAnalysis.Colour | node/runtime/phase.py:74-87 | for every visiting order the search colours exactly the nodes reachable from the entry, each cut edge (u, v) has a path from v to u, and what remains is acyclic |
| DagAnalysis.CutEdgeIsOnCycle | node/runtime/phase.py:80-81 | an edge that is cut lies on a closed walk |
| DagAnalysis.Analyze | node/runtime/phase.py:49-93 | the topology holds the entry, cut edges that close cycles, an acyclic rest and the nodes with at least two uncut predecessors |
| DagAnalysis.BackEdgesExactlyOnCycles | node/runtime/phase.py:49-93 | a blob loses no edge if and only if it has no cycle below its entry; then the join nodes are exactly those with at least two predecessors |
| CallStack.FrameRoundTrip | node/runtime/phase.py:555-593 | the "blob#node" frame is read back exactly if and only if the blob name has no '#' |
| CallStack.HashInBlobName | node/runtime/phase.py:555-593 | counterexample: a frame of a blob named "a#b" is read back as blob "a" at node "b#n" |
| CallStack.ReturnRestores | node/runtime/phase.py:555-593 | RETURN, or END inside a sub-branch, gives back the caller's blob and stack at its resume node or the node RETURN names |
| CallStack.BracketedRestores | node/runtime/phase.py:555-593 | every well-bracketed run that raises nothing ends in the blob and with the stack it began with |
| CallStack.SubReturns | node/runtime/phase.py:555-593 | a whole sub-branch acts on its caller as one move to the resume node |
| CallStack.ResolveKeepsRoot | node/runtime/phase.py:555-593 | any single target keeps the root blob |
| CallStack.ResumeRecoversRoot | node/runtime/fsm/traverser.py:137-139 | in every run from an empty stack the bottom frame, or the active blob, names the blob the run started in |
| FuelSlices.SharesAddUp | node/runtime/phase.py:595-603 | shares always add up to the total; equal shares differ by at most one unit |
| FuelSlices.RatioSharesClose | node/runtime/phase.py:595-603 | with non-negative ratios no share is negative, every share but the first is its exact part rounded down and the first exceeds its rounded-down part by at most one unit per ratio |
| FuelSlices.SharesNonNegative | node/runtime/phase.py:595-603 | no share of a non-negative total is negative when no ratio is |
| FuelSlices.SharesNonNegativeIff | node/runtime/phase.py:595-603 | for any ratios, none of the shares computed, handed out or not, is negative if and only if every ratio but the first earns more than -1 and together they earn no more than the total; equal shares exactly when the total is non-negative |
| FuelSlices.HandedOutNonNegativeIff | node/runtime/phase.py:350-354 | for any ratios, no target of a fork gets a negative share if and only if every ratio of a later target earns more than -1 and the ratios but the first, surplus ones included, together earn no more than the total |
| FuelSlices.HandedOutSum | node/runtime/phase.py:350-354 | pairing targets with shares hands out the total minus the shares beyond the last target |
| FuelSlices.HandsOutAllIff | node/runtime/phase.py:350-354 | for any ratios, negative ones included, a fork hands out exactly its fuel if and only if the truncated parts beyond the last target add up to zero; it burns fuel if they add up to more and mints fuel if they add up to less |
| FuelSlices.NonNegativeHandsOutIff | node/runtime/phase.py:350-354 | with non-negative ratios nothing is minted, and nothing is burnt if and only if every ratio beyond the last target earns less than one unit |
| FuelSlices.ThreeRatiosTwoTargets | node/runtime/phase.py:350-354 | counterexample: three equal ratios for two targets burn a third of the fuel |
| FuelSlices.NegativeRatioMints | node/runtime/phase.py:350-354 | counterexample: ratios 2, 1, -1 for two targets hand out 45 units of 30 |
| FuelSlices.NegativeRatioNegativeShare | node/runtime/phase.py:595-603 | counterexample: ratios 2, -1 give the second of two targets -30 units |
| BranchCursors.OutputRoundTrip | node/runtime/phase.py:148-188 | reading an anchor output back gives the cursor at its new pointer if and only if the stream id survives |
| StreamIds.DecimalInjective | node/runtime/phase.py:358 | different child indices have different decimal spellings |
| StreamIds.ChildrenApart | node/runtime/phase.py:358 | different children of one fork have different ids, and none is named below another |
| StreamIds.ApartFromChild | node/runtime/phase.py:358 | a stream apart from the parent, neither above nor below it, is apart from every child |
| BranchRuntime.TransitionFuel | node/runtime/phase.py:229-248 | a sealed transition over distinct live cursors replaces their fuel by that of the next ones |
| BranchRuntime.MergeConservesIff | node/runtime/phase.py:377-404 | a merge of live cursors changes the live fuel by exactly the fuel of the repetitions in its list, so with no negative fuel it keeps it if and only if no cursor with fuel is listed twice |
| BranchRuntime.DoubledCursorMints | node/runtime/phase.py:377-404 | counterexample: merging one live cursor of 10 units with itself makes 20 live units |
| BranchRuntime.CreatesFuel | node/runtime/phase.py:251-404 | what an operation creates carries what it spends, less its cost, its drain and its dropped shares |
| BranchRuntime.ForkConservesIff | node/runtime/phase.py:332-375 | a fork's children carry exactly the parent's fuel less the cost if and only if the ratios beyond the last target earn nothing in sum; otherwise fuel is burnt or minted |
| BranchRuntime.ChildrenNonNegativeIff | node/runtime/phase.py:332-375 | the children of a fork have no negative fuel if and only if its targets are solvent in that sense |
| BranchRuntime.PerformNoDebtIff | node/runtime/phase.py:229-404 | a sealed operation on a ledger without debt leaves no live anchor below zero if and only if it is solvent |
| BranchRuntime.PerformBalanced | node/runtime/phase.py:229-404 | every sealed operation keeps live fuel + costs + drained + dropped = minted, where dropped shares count negatively when a fork hands out too much |
| BranchRuntime.FuelConserved | node/runtime/phase.py:229-404 | that equation holds over every run of sealed spawns, steps, forks, merges and fallbacks on distinct live cursors |
| BranchRuntime.NoDebtThroughoutIff | node/runtime/phase.py:229-404 | over every run no live anchor is ever below zero if and only if every operation is solvent |
| BranchRuntime.PrudentRuns | node/runtime/fsm/traverser.py:313-343 | with at most one non-negative ratio per target nothing is dropped, no live anchor is negative, and live fuel + costs + drained fuel is exactly the genesis fuel |
| BranchRuntime.EmptyRuntime | node/runtime/phase.py:251-288 | an empty ledger balances |
| CursorRestore.FindOutput | node/runtime/phase.py:430-442 | finds the first output that answers for the stream, or reports that none does |
| CursorRestore.RestoreAfterTransition | node/runtime/phase.py:406-442 | right after a sealed commit a stream restores to its cursor with the same pointer, blob, node, fuel, meta, stack and tick, if and only if no earlier cursor of the commit uses the same stream id |
| CursorRestore.SharedStreamRestoresFirst | node/runtime/phase.py:229-248 | only a direct call of `_commit_transition` can name one stream twice; the stream then restores to the first cursor |
| CursorRestore.RunKeepsRestore | node/runtime/phase.py:406-442 | no commit or head update that does not name the stream changes what it restores to |
| CursorRestore.CreatedStreamsDiffer | node/runtime/phase.py:350-366 | no operation creates two cursors on one stream |
| CursorRestore.CursorSurvives | node/runtime/phase.py:229-442 | for spawn, step, fork, merge and fallback alike: from the commit that produced a cursor until the next event naming its stream, the stream restores to that very cursor |
| JoinBarrier.JoinedOrderly | node/runtime/phase.py:98-106 | an arrival keeps the streams of a bucket distinct and adds exactly its own stream |
| JoinBarrier.StepOrderly | node/runtime/phase.py:98-120 | every call keeps buckets of pairwise distinct streams at their own node |
| JoinBarrier.StepAccounts | node/runtime/phase.py:98-120 | every call conserves cursors: waiting before + accepted = waiting after + handed back |
| JoinBarrier.NothingLostOrRepeated | node/runtime/phase.py:98-120 | over every run of calls each accepted cursor still waits or was handed back exactly once |
| JoinBarrier.RunGathers | node/runtime/phase.py:98-120 | after any run of calls a bucket holds exactly the streams that arrived there since it last fired or was drained |
| JoinBarrier.FiresOnExpectedDistinct | node/runtime/phase.py:98-106 | after any run of calls with any expected counts, an arrival fires exactly when it brings the distinct streams gathered at its node to the expected count, and hands back one cursor of each |
| JoinBarrier.FiresOnNthDistinct | node/runtime/phase.py:98-106 | with a fixed expected count n at a node, whatever calls happen in between at other nodes, its barrier fires exactly on the n-th distinct stream since it last fired or was drained, with n distinct streams |
| JoinBarrier.StreamsCount | node/runtime/phase.py:98-106 | a bucket of distinct streams is as long as its set of streams |
| JoinBarrier.Barrier.constructor | node/runtime/phase.py:45-47 | every join node starts with an empty bucket |
| JoinBarrier.Barrier.ArriveAt | node/runtime/phase.py:98-106 | `arrive` is the specified arrival and returns distinct streams |
| JoinBarrier.Barrier.DrainNode | node/runtime/phase.py:108-113 | draining one node returns its bucket and empties it |
| JoinBarrier.Barrier.DrainEverything | node/runtime/phase.py:108-120 | draining everything returns each waiting cursor exactly as often as it waited, in any order of the buckets |
| QueueBooks.SpentAtMostOnce | node/runtime/fsm/traverser.py:150-288 | if every transition spends live cursors only, no cursor is spent more often than it came into being |
| QueueBooks.ArriveKeeps | node/runtime/fsm/traverser.py:354-370 | an arrival at the barrier keeps every live cursor accounted for; only a repeated stream is turned away |
| QueueBooks.CommitKeeps | node/runtime/fsm/traverser.py:212-259 | a transition over cursors in hand spends live cursors only and keeps the account |
| QueueBooks.DrainKeeps | node/runtime/fsm/traverser.py:284-288 | draining the barrier hands over exactly the cursors that waited |
| QueueBooks.ParkFaithful | node/runtime/fsm/traverser.py:201-208 | the parked table holds, for every parked stream, a cursor that differs from the executed one in its metadata only |
| QueueDriver.RouteKeeps | node/runtime/fsm/traverser.py:345-373 | routing, waiting and collapsing lose no cursor and spend live ones only, also when the merge raises |
| QueueDriver.AnswerKeeps | node/runtime/fsm/traverser.py:197-282 | whatever the executor answers and whichever merge raises, live cursors stay accounted for; after an exception the rest is what the raising code held |
| QueueDriver.AnswerTicks | node/runtime/fsm/traverser.py:197-282 | no answer changes the tick count, and only a terminated successor is added to the completed cursors |
| QueueDriver.AnswerFaithful | node/runtime/fsm/traverser.py:201-208 | parking keeps pointer, fuel and tick of every parked cursor |
| QueueDriver.TurnSteady | node/runtime/fsm/traverser.py:185-282 | one turn of the loop keeps the account, the tick bound and the parked table faithful |
| QueueDriver.TakenKeeps | node/runtime/fsm/traverser.py:185-193 | taking the head of the queue completes a terminated cursor or costs one tick, within the bound |
| QueueDriver.DriveAccounts | node/runtime/fsm/traverser.py:185-282 | for every graph, executor, fork pattern and failing merge: at most max_ticks executions, the loop ends with an empty queue, no tick left or a raised exception, no transition spent a cursor that was not live, every live cursor is accounted for, and parking spent nothing |
| QueueDriver.TraversalAccounts | node/runtime/fsm/traverser.py:150-282 | the same for a whole traversal from its initial cursors |
| QueueDriver.ParkEachKeeps | node/runtime/fsm/traverser.py:284-288 | parking the siblings commits nothing, keeps earlier entries and records every one of their streams |
| QueueDriver.DrainParks | node/runtime/fsm/traverser.py:284-288 | draining the barrier into the parked table leaves nobody waiting and loses nobody |
| QueueDriver.Traverser.constructor | node/runtime/fsm/traverser.py:34-52 | a traverser over a barrier, an arbiter and the outcomes of its merges |
| QueueDriver.Traverser.MergeReady | node/runtime/fsm/traverser.py:357-368 | the released cursors become the arbiter's choice on the base stream with everybody's fuel, or stay in hand when the index is invalid or the commit raises |
| QueueDriver.Traverser.RouteOne | node/runtime/fsm/traverser.py:345-373 | `_route_or_collapse_at_barrier` with the bookkeeping of its callers is the routing step |
| QueueDriver.Traverser.RouteAll | node/runtime/fsm/traverser.py:171-183 | the loop routes the cursors one after the other, in order, and stops at an exception |
| QueueDriver.Traverser.Perform | node/runtime/fsm/traverser.py:201-282 | park, fork with all children expected at the joins, step or fall back and then complete or route, or re-raise |
| QueueDriver.Traverser.Pop | node/runtime/fsm/traverser.py:186-193 | the head leaves the queue; a terminated cursor is completed, any other costs a tick |
| QueueDriver.Traverser.TurnOnce | node/runtime/fsm/traverser.py:185-282 | one pass through the loop body is one turn of the driver |
| QueueDriver.Traverser.Loop | node/runtime/fsm/traverser.py:185-282 | the while loop computes the run of the driver and terminates by the pair (ticks left, queue length) |
| QueueDriver.Traverser.ParkStranded | node/runtime/fsm/traverser.py:286-288 | the drained siblings enter the parked table by `setdefault` |
| QueueDriver.Traverser.ParkWaiting | node/runtime/fsm/traverser.py:284-288 | every cursor that waited at a join is parked, earlier entries stay, and the barrier is empty |
| QueueDriver.Traverser.DriveQueue | node/runtime/fsm/traverser.py:150-288 | the method computes the run of the traversal, which is settled as `DriveAccounts` says, and then parks the waiting siblings if anything is parked |
| TraversalLedger.RecordedIsSealable | node/runtime/fsm/traverser.py:150-288 | if every transition spends live cursors only and is a step, fork, merge or fallback under a new hash, then the run is sealable on distinct live anchors, keeps the fuel equation, and the live cursors of the books are distinct live anchors |
| TraversalLedger.TraversalConserves | node/runtime/fsm/traverser.py:150-288 | for every graph, executor, fork pattern and failing merge, the operations of a whole traversal are a sealable run that keeps the fuel equation, and every cursor the driver still has is a live anchor with its fuel |
| TraversalLedger.SpawnedTraversalConserves | node/runtime/phase.py:251-288 | spawning and traversing adds to live anchors, step costs, drained fuel and dropped shares together exactly the fuel of the spawned cursor |
| QueueStreams.NobodyTurnedAwayIff | node/runtime/fsm/traverser.py:185-282 | over every run of the driver the barrier turns nobody away if and only if no cursor reaches a join node at which its stream already waits |
| QueueStreams.TransitionFreeIff | node/runtime/phase.py:229-248 | live streams stay prefix-free under a transition if and only if those it makes are apart from one another and from everyone who stays |
| QueueStreams.ForkKeepsFree | node/runtime/phase.py:350-366 | a fork, naming its children below the parent, keeps live streams prefix-free |
| QueueStreams.StepKeepsFree | node/runtime/phase.py:290-330 | a step or fallback stays on its stream and keeps live streams prefix-free |
| QueueStreams.MergeKeepsFreeIff | node/runtime/phase.py:377-404 | a merge keeps live streams prefix-free if and only if nobody who stays is below or above the stream it merges onto |
| QueueStreams.FreeAlongIff | node/runtime/fsm/traverser.py:150-288 | over every run of logged operations live streams are prefix-free throughout if and only if every merge is alone in that sense |
| QueueStreams.LiveBelowBase | node/runtime/fsm/traverser.py:150-288 | in a traversal that starts at or below the base stream every live stream is the base stream or named below it |
| QueueStreams.AloneIffLast | node/runtime/fsm/traverser.py:357-368 | so a merge onto the base stream is alone if and only if it leaves no other live cursor |
| QueueStreams.NobodyTurnedAway | node/runtime/fsm/traverser.py:185-282 | while live streams are prefix-free no cursor meets its own stream at a join, so the driver turns nobody away |
| QueueStreams.TraversalTurnsNobodyAway | node/runtime/fsm/traverser.py:150-288 | a traversal of logged operations from cursors on streams apart, whose merges are alone, turns nobody away |
| StreamCollision.StreamIdTwice | node/runtime/fsm/traverser.py:201-282 | counterexample: a nested fork merges back onto the base stream while its sibling is under way, a second fork creates the sibling's stream again, and the barrier turns the sibling away |
| StreamCollision.ScriptLogged | node/runtime/phase.py:290-404 | the six transitions of that counterexample are operations of the runtime with their fuel, each under its own hash |
| StreamCollision.MergeNotAlone | node/runtime/fsm/traverser.py:357-368 | its merge leaves a live cursor below the stream it merges onto |
| FsmCompiler.ValidatePhase | arch/xor/fsm/compiler.py:347-354 | accepts exactly signatures whose entry and internal targets are nodes |
| FsmCompiler.BuildFragment | arch/xor/fsm/compiler.py:112-180 | one state yields its fragment, and a choice without Next is an error |
| FsmCompiler.BuildFragmentSig | arch/xor/fsm/compiler.py:92-183 | the loop over the states yields the specified signature, or an error exactly when a choice lacks Next or validation fails |
| FsmCompiler.ProjectCompactBlob | arch/xor/fsm/compiler.py:37-75 | the projection loop over the nodes yields the specified blob |
| FsmCompiler.CollectEdges | arch/xor/fsm/compiler.py:37-75 | the loop over the relations of a node collects exactly its conditional, direct and fallback edges, each in order |
| FsmCompiler.ProjectFragment | arch/xor/fsm/compiler.py:37-75 | one node's rules, next target and fallback are assembled as specified |
| FsmCompiler.TaskTargets | arch/xor/fsm/compiler.py:48-70 | the targets of a projected task are its Next targets and its Catch target, or END without Next |
| FsmCompiler.ChooseTargets | arch/xor/fsm/compiler.py:48-70 | the targets of a projected choice are its rule targets and its default, or END, except a default that is "" |
| FsmCompiler.BlobClosed | arch/xor/fsm/compiler.py:347-354 | the blob of every accepted schema is closed: its entry and all its internal targets are nodes |
| FsmCompiler.RowReadBack | node/runtime/phase.py:56-72 | the analyser reads back a node's internal edges if and only if no state is named like one of its external targets and its default is not dropped |
| FsmCompiler.ReadsBackIff | node/runtime/phase.py:56-72 | the analyser reads back exactly the internal edges of the signature if and only if that holds of every node |
| FsmCompiler.PlainNamesReadBack | node/runtime/phase.py:56-72 | so for every accepted schema whose state names are non-empty and not reserved, the two graphs are equal |
| FsmCompiler.StateNamedEnd | arch/xor/fsm/compiler.py:63-70 | counterexample: with a state named END, finishing a task becomes an edge to that state |
| IdGenerators.ParseInvertsPack | arch/contract/event/next.py:68-78 | `parse_id` recovers datacenter, worker and sequence, and the time if and only if it is in the 41-bit range |
| Bits.MaskIsMod | arch/contract/event/next.py:52-78 | masking an integer, also a negative one, with 2^n - 1 is its remainder by 2^n |
| Bits.OrField | arch/contract/event/next.py:52-59 | or-ing a field into the free bits below another adds it |
| IdGenerators.PackBitsIsPack | arch/contract/event/next.py:52-59 | the shift-and-or expression of `generate` is the sum of its shifted fields |
| IdGenerators.ParseBitsIsParse | arch/contract/event/next.py:68-78 | the shift-and-mask expressions of `parse_id` are quotients and remainders |
| IdGenerators.ParseInvertsBits | arch/contract/event/next.py:52-78 | so parsing what `generate` packs, bit for bit, gives back every field, the time exactly within its 41 bits |
| IdGenerators.PackId | arch/contract/event/next.py:52-59 | the packing expression computes the specified identifier |
| IdGenerators.ParseIdBits | arch/contract/event/next.py:68-78 | the parsing expressions compute the specified fields |
| IdGenerators.GeneratorsNeverCollide | arch/contract/event/next.py:20-59 | generators with different (datacenter, worker) never collide, whatever their clocks do |
| IdGenerators.NextIsLargerIff | arch/contract/event/next.py:31-60 | within range the next identifier is larger if and only if the clock is not behind after the sleep |
| IdGenerators.RunIncreasingIff | arch/contract/event/next.py:31-60 | over every run within range the identifiers strictly increase if and only if no accepted call found the clock behind after its sleep |
| IdGenerators.FreshRunIncreasingIff | arch/contract/event/next.py:20-60 | from a new generator, a run within range is strictly increasing if and only if no accepted call found the clock behind after its sleep |
| IdGenerators.ClockBehindRepeats | arch/contract/event/next.py:34-46 | counterexample: a clock still behind after the sleep repeats an identifier |
| IdGenerators.ToposGenerator.constructor | arch/contract/event/next.py:20-26 | worker and datacenter are the low five bits, the state is fresh |
| IdGenerators.ToposGenerator.NextId | arch/contract/event/next.py:31-59 | `generate` is the specified step: refuse a clock more than 5 ms behind, wrap the sequence at 4096 and wait for the next millisecond |
| IdGenerators.ParsePhaseInvertsPack | arch/contract/event/next.py:135-180 | `parse_phase_id` recovers epoch, tick and both differences clamped to 2047 either way |
| IdGenerators.PhaseBitsIsPack | arch/contract/event/next.py:147-155 | the shift-and-or expression of the phase identifier is the sum of its shifted fields |
| IdGenerators.ParsePhaseInvertsBits | arch/contract/event/next.py:135-180 | parsing what the phase generator packs, bit for bit, gives back epoch, tick and clamped differences |
| IdGenerators.PackPhaseId | arch/contract/event/next.py:147-155 | the packing expression computes the specified phase identifier |
| IdGenerators.DifferencesTelescope | arch/contract/event/next.py:124-155 | over every run the decoded differences add up to the last readings less what saturation cut off, so exactly when nothing saturates |
| IdGenerators.EpochIsParity | arch/contract/event/next.py:127-128 | the epoch is the parity of all ruptures |
| IdGenerators.DecodedAfterRun | arch/contract/event/next.py:124-180 | after any run the next identifier decodes to the rupture parity and the clamped differences from the previous readings |
| IdGenerators.PhaseIdGenerator.constructor | arch/contract/event/next.py:115-122 | a new generator is at zero |
| IdGenerators.PhaseIdGenerator.NextPhaseId | arch/contract/event/next.py:124-155 | `generate` is the specified step and its result decodes to the new epoch, tick and clamped differences |
| IdGenerators.AnyTwoRecoverTheThird | arch/contract/event/next.py:184-222 | any two of topos-low32, phase and nexus recover the third, and all three together are valid |
| Bits.XorCancels | arch/contract/event/next.py:184-222 | xor with the same identifier twice gives back the first one |
| IdGenerators.ValidIffEachRecovered | arch/contract/event/next.py:189-222 | three identifiers are valid if and only if each is the one the other two recover |
| EpochHistory.SnapshotsCarryEverything | state/phase/commit.py:204-209 | in every snapshot aligned and carried names are disjoint, the anchor is not carried, and every other name ever aligned has its most recent hash |
| EpochHistory.ResolveIsLatest | state/phase/commit.py:109-118 | for every history and every repository but the anchor, the three-snapshot window answers with the most recent alignment of the full history |
| EpochHistory.AnchorResolveIff | state/phase/commit.py:109-118 | for the anchor itself the answer is the latest one if and only if one of the last three epochs recorded it (or its head agrees) |
| EpochHistory.AnchorForgotten | state/phase/commit.py:204-209 | counterexample: three epochs without an anchor result make `resolve` answer "genesis" |
| EpochHistory.EpochManager.constructor | state/phase/commit.py:96-98 | a manager without history |
| EpochHistory.EpochManager.ResolveState | state/phase/commit.py:109-118 | `resolve` answers as specified, with the most recent alignment for every other repository |
| EpochHistory.EpochManager.SearchBack | state/phase/commit.py:112-118 | the loop over the reversed window finds the newest entry, else the head, else "genesis" |
| EpochHistory.EpochManager.CarryForward | state/phase/commit.py:204-209 | carries exactly the names of the last snapshot that were not aligned and are not the anchor |
| EpochHistory.EpochManager.InscribeAll | state/phase/commit.py:187-202 | every inscription continues from the repository's most recent alignment; the first exception stops the loop |
| EpochHistory.EpochManager.Append | state/phase/commit.py:243-255 | appending the sealed snapshot keeps the history that of the applied epochs |
| EpochHistory.EpochManager.AnchorCommit | state/phase/commit.py:159-255 | an applied and sealed alignment appends exactly one snapshot; a refused seal, a dry run or an exception leaves the history as it was |

## Left out

- The PROPOSER role, the relay and the Redis tunnel: with relay timeouts an unsealed outcome is ambiguous, so ledger claims are for one SEALER process.
- `execute_transaction` returns the hash of an unsealed transaction as if it had succeeded; the model carries the sealed outcome explicitly and conservation is stated over sealed transactions.
- Cancellation inside `execute_transaction`: `CancelledError` is not caught there, and its reservations would stay.
- The adapter checks neither that an input exists, nor that it is unspent on disk, nor that amounts balance: no-double-spend is a claim about one process, and claims that need the rest ask it of the callers (`Orderly`, `Backed`, `Sealable`).
- Cryptography (Ed25519, SHA-256, Merkle roots): signature checks are a predicate, hashing is a collision-free function; transaction hashes are fresh.
- Canonical JSON, transaction payload parsing in `_extract_tx_from_commit` and the payload size: an injective encoding and a size function.
- `_resolve_commit_hash`, `find_commit_hash_by_tx` and `verify_lineage` of the adapter: lookups that add only easy members.
- WASM engines, brokers and linkers: steps satisfy remaining fuel = fuel - step cost; parity checks are a predicate; `fsm.wasm` partitioning after the compact blob is not modelled.
- Floating-point rounding of fuel ratios: exact rationals; the sum identity does not depend on rounding.
- `restore_cursor` for a name that is a key of the local unfold pool, and a database write that fails half-way through a transition.
- The signature threshold of `seal_system_epoch` (its write is the `SaveCommit` event of the store) and the head updates at the end of `anchor_commit`: the resolved states are proved for arbitrary heads.
- A registry that fails to decode: `load_history` then starts from an empty history.
- The final sweep of `_drive_queue`, `_active_cursors` and `visited_history`: the sweep merges only one pool, so under nested forks not all fuel ends in the final cursor; conservation is proved at the ledger instead.
- `expected_parallel` is one counter shared by nested forks; the model follows the code, and only the bookkeeping of cursors is claimed for it.
- QueueDriver.Traverser.RouteOne: the reset of `expected_parallel` after a collapse is inside the call instead of at its callers.
- QueueDriver.Traverser.Perform: after a fork was committed, the `except` clause may try to fall back on its parent; the ledger refuses the spent parent if its cursor has an owner key (`PtaLedger.SpentStaysRefused`), so the model raises.
- JoinBarrier.NothingLostOrRepeated: a second arrival of a stream that already waits is turned away, as in the code; the driver counts these as repeated.
- DagAnalysis.BackEdgesExactlyOnCycles: predecessors that cannot be reached from the entry count as in the code.
- FsmCompiler.BuildFragmentSig: the CAS pool, task parameters, condition strings and resource keywords; `Catch` is already reduced to its target; a task is never a router.
- LockManager.NoWaitCycle: a sufficient condition; a run that violates it need not deadlock, so no exact condition on the calls is claimed.
- LockManager.StepKeeps: the actual timeouts are left out, a waiting call may give up at any moment.
- Lock keys and database keys are sequences of code points or bytes compared lexicographically.
- IdGenerators.ToposGenerator.NextId: the readings of the clock are parameters; a call whose readings never pass the last millisecond is reported as still waiting.
- UUIDs, trace ids, telemetry events, configuration, logging and command-line surfaces: easy or bound to the environment.
- The real FoundationDB backend: only the emulated driver is modelled.
- EpochHistory.AnchorForgotten: `node/space/time/schema.json` lists `anchor_result` as required in the response; the counterexample rests on the guard at `state/phase/commit.py:247`, which tolerates its absence, and does not happen when the response keeps to the schema.
- TraversalLedger.TraversalConserves: that what an executor commits is an operation of the runtime, under a new hash, is a condition on the recorded transitions (`Logged`), not on the executor's code.
- Snapshot isolation of the oracle's read-only view: the scan sees the commits of the store.
