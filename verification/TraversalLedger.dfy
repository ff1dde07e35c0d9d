/**
 * The transitions that a traversal records (node/runtime/fsm/traverser.py) are operations of the
 * runtime on distinct live anchors of the ledger (node/runtime/phase.py): what the driver's account
 * says about cursors carries over to pointers and fuel.
 */
module TraversalLedger {
  import opened Wrappers
  import opened PtaLedger
  import opened PtaTotals
  import opened BranchCursors
  import opened BranchRuntime
  import opened JoinBarrier
  import opened QueueBooks
  import opened QueueDriver
  import opened Sequences

  /** The operations that were sealed, in order, each with the environment of its commit. */
  type Log = seq<(Move, Env)>

  /** The cursors an operation works on are those in hand, some with the metadata of their execution. */
  ghost predicate SameButMeta(a: Cursors, b: Cursors) {
    |a| == |b| && forall i :: 0 <= i < |a| ==> b[i] == a[i].(meta := b[i].meta)
  }

  /** A recorded transition is the sealed step, fork, merge or fallback `m`: same cursors spent, same ones made. */
  ghost predicate Carries(t: Commit, m: Move, e: Env) {
    && !m.Spawn? && Creates(m).Some? && AllFit(Creates(m).value, e.size)
    && SameButMeta(t.spent, Spends(m)) && t.made == Committed(Creates(m).value, e.hash)
  }

  /** Every recorded transition is the operation of the log, under a hash of its own. */
  ghost predicate Logged(prior: seq<Tx>, commits: seq<Commit>, log: Log)
    decreases |commits|
  {
    && |log| == |commits|
    && (commits != [] ==>
          var n := |commits| - 1;
          && Logged(prior, commits[..n], log[..n]) && Carries(commits[n], log[n].0, log[n].1)
          && NewHash(prior, log[..n], log[n].1.hash))
  }

  ghost predicate NewHash(prior: seq<Tx>, log: Log, hash: string) {
    && (forall p :: p in AllProduced(prior) ==> p.txHash != hash)
    && (forall i :: 0 <= i < |log| ==> log[i].1.hash != hash)
  }

  lemma {:induction false} LoggedSnoc(prior: seq<Tx>, commits: seq<Commit>, log: Log, t: Commit, m: Move, e: Env)
    requires Logged(prior, commits, log) && Carries(t, m, e) && NewHash(prior, log, e.hash)
    ensures Logged(prior, commits + [t], log + [(m, e)])
  {
    assert (commits + [t])[..|commits|] == commits && (log + [(m, e)])[..|log|] == log;
  }

  /** The books' live cursors are distinct live anchors of the ledger. */
  ghost predicate Tracks(initial: Cursors, commits: seq<Commit>, ledger: seq<Tx>) {
    && (forall c :: LiveCount(initial, commits, c) <= 1)
    && (forall c :: LiveCount(initial, commits, c) > 0 ==> Live(ledger, c))
    && (forall c, d :: LiveCount(initial, commits, c) > 0 && LiveCount(initial, commits, d) > 0 && c != d ==>
          c.pointer != d.pointer)
  }

  /** Nothing is in the ledger but what was there before and what the log has committed. */
  ghost predicate OnlyLogged(prior: seq<Tx>, log: Log, ledger: seq<Tx>) {
    forall p :: p in AllProduced(ledger) ==>
      p in AllProduced(prior) || exists i :: 0 <= i < |log| && log[i].1.hash == p.txHash
  }

  lemma {:induction false} PlaySnoc(r: Runtime, log: Log, m: Move, e: Env)
    requires SealableRun(r, log) && Sealable(Play(r, log), m, e)
    ensures SealableRun(r, log + [(m, e)]) && Play(r, log + [(m, e)]) == Perform(Play(r, log), m, e)
    decreases |log|
  {
    var all := log + [(m, e)];
    if log == [] {
      assert all[1..] == [];
    } else {
      assert all[0] == log[0] && all[1..] == log[1..] + [(m, e)];
      PlaySnoc(Perform(r, log[0].0, log[0].1), log[1..], m, e);
    }
  }

  lemma {:induction false} LiveSnoc(initial: Cursors, commits: seq<Commit>, t: Commit, c: BranchCursor)
    ensures LiveCount(initial, commits + [t], c)
         == LiveCount(initial, commits, c) - Count(t.spent, c) + Count(t.made, c)
  {
    assert (commits + [t])[..|commits|] == commits;
  }

  lemma {:induction false} CountTwice(s: Cursors, i: nat, j: nat)
    requires i < j < |s| && s[i] == s[j]
    ensures Count(s, s[i]) >= 2
    decreases |s|
  {
    var n := |s| - 1;
    if j == n {
      assert s[..n][i] == s[i];
      CountMember(s[..n], s[i]);
    } else {
      CountTwice(s[..n], i, j);
    }
  }

  lemma {:induction false} CountDistinct(s: Cursors, c: BranchCursor)
    requires forall i, j :: 0 <= i < j < |s| ==> s[i] != s[j]
    ensures Count(s, c) <= 1
    decreases |s|
  {
    if s != [] {
      var n := |s| - 1;
      CountDistinct(s[..n], c);
      CountMember(s[..n], s[n]);
      forall x | x in s[..n] ensures x != s[n] { var i :| 0 <= i < n && s[i] == x; }
    }
  }

  /** What a transition of live cursors spends is distinct and live in the ledger. */
  lemma {:induction false} SpendsLive(initial: Cursors, commits: seq<Commit>, t: Commit, ledger: seq<Tx>)
    requires Tracks(initial, commits, ledger)
    requires forall c :: Count(t.spent, c) <= LiveCount(initial, commits, c)
    ensures AllLive(ledger, t.spent) && DistinctCursors(t.spent)
    ensures forall c :: c in t.spent ==> LiveCount(initial, commits, c) == 1
  {
    forall c | c in t.spent ensures LiveCount(initial, commits, c) == 1 { CountMember(t.spent, c); }
    forall i, j | 0 <= i < j < |t.spent| ensures t.spent[i].pointer != t.spent[j].pointer {
      assert t.spent[i] in t.spent && t.spent[j] in t.spent;
      if t.spent[i] == t.spent[j] { CountTwice(t.spent, i, j); }
    }
  }

  lemma {:induction false} MetaKeepsClaims(ledger: seq<Tx>, a: Cursors, b: Cursors)
    requires SameButMeta(a, b) && AllLive(ledger, a) && DistinctCursors(a)
    ensures AllLive(ledger, b) && DistinctCursors(b)
  {
    forall c | c in b ensures Live(ledger, c) {
      var i :| 0 <= i < |b| && b[i] == c;
      assert Live(ledger, a[i]);
    }
  }

  /** A sealed transition makes its cursors live and leaves every live cursor live whose pointer it does not spend. */
  lemma {:induction false} TransitionLive(ledger: seq<Tx>, spent: Cursors, next: Cursors, e: Env)
    requires InputsKnown(ledger) && AllLive(ledger, spent) && AllFit(next, e.size)
    requires forall p :: p in AllProduced(ledger) ==> p.txHash != e.hash
    ensures var tx := TransitionTx(spent, next, e.status, e.hash, e.sign, e.size);
            && InputsKnown(ledger + [tx])
            && AllLive(ledger + [tx], Committed(next, e.hash))
            && (forall c :: Live(ledger, c) && (forall i :: 0 <= i < |spent| ==> spent[i].pointer != c.pointer) ==>
                  Live(ledger + [tx], c))
  {
    var tx := TransitionTx(spent, next, e.status, e.hash, e.sign, e.size);
    LiveFunded(ledger, spent, tx, e.sign);
    SealedUnspent(ledger, tx);
    forall c | c in Committed(next, e.hash) ensures Live(ledger + [tx], c) {
      var i :| 0 <= i < |next| && Committed(next, e.hash)[i] == c;
      assert c.pointer in Produced(tx) && Produced(tx)[c.pointer] == tx.outputs[i];
    }
    forall c | Live(ledger, c) && (forall i :: 0 <= i < |spent| ==> spent[i].pointer != c.pointer)
      ensures Live(ledger + [tx], c)
    {
      NotSpentNow(spent, next, e, c.pointer);
    }
  }

  lemma {:induction false} NotSpentNow(spent: Cursors, next: Cursors, e: Env, p: Pointer)
    requires AllFit(next, e.size) && forall i :: 0 <= i < |spent| ==> spent[i].pointer != p
    ensures p !in Pointers(TransitionTx(spent, next, e.status, e.hash, e.sign, e.size))
  {
    var tx := TransitionTx(spent, next, e.status, e.hash, e.sign, e.size);
    forall i | i in tx.inputs ensures i.pointer != p {
      var k :| 0 <= k < |tx.inputs| && tx.inputs[k] == i;
    }
  }

  /** A new cursor cannot have been live before: its hash is new. */
  lemma {:induction false} MadeNew(initial: Cursors, commits: seq<Commit>, ledger: seq<Tx>, next: Cursors, hash: string,
                                   c: BranchCursor)
    requires Tracks(initial, commits, ledger) && (forall x :: LiveCount(initial, commits, x) >= 0)
    requires (forall p :: p in AllProduced(ledger) ==> p.txHash != hash) && c in Committed(next, hash)
    ensures LiveCount(initial, commits, c) == 0 && Count(Committed(next, hash), c) == 1 && c.pointer.txHash == hash
  {
    var made := Committed(next, hash);
    CountMember(made, c);
    CountDistinct(made, c);
    var i :| 0 <= i < |made| && made[i] == c;
  }

  lemma {:induction false} LiveNonNegative(initial: Cursors, commits: seq<Commit>, c: BranchCursor)
    requires SpendsOnlyLive(initial, commits)
    ensures LiveCount(initial, commits, c) >= 0
    decreases |commits|
  {
    if commits != [] { LiveNonNegative(initial, commits[..|commits| - 1], c); }
  }

  /** What is live after a transition was made by it, or was live before and is not spent by it. */
  lemma {:induction false} LiveAfter(initial: Cursors, commits: seq<Commit>, t: Commit, ledger: seq<Tx>, next: Cursors,
                                     hash: string, c: BranchCursor)
    requires Tracks(initial, commits, ledger) && (forall x :: LiveCount(initial, commits, x) >= 0)
    requires (forall p :: p in AllProduced(ledger) ==> p.txHash != hash) && t.made == Committed(next, hash)
    requires forall x :: Count(t.spent, x) <= LiveCount(initial, commits, x)
    ensures LiveCount(initial, commits + [t], c) <= 1
    ensures LiveCount(initial, commits + [t], c) > 0 <==>
            c in t.made || (c !in t.spent && LiveCount(initial, commits, c) > 0)
  {
    LiveSnoc(initial, commits, t, c);
    CountMember(t.made, c);
    CountMember(t.spent, c);
    assert LiveCount(initial, commits, c) <= 1;
    if c in t.made { MadeNew(initial, commits, ledger, next, hash, c); }
  }

  lemma {:induction false} TracksStep(initial: Cursors, commits: seq<Commit>, t: Commit, ledger: seq<Tx>, next: Cursors,
                                      spends: Cursors, e: Env)
    requires Tracks(initial, commits, ledger) && (forall x :: LiveCount(initial, commits, x) >= 0)
    requires InputsKnown(ledger) && AllFit(next, e.size) && t.made == Committed(next, e.hash)
    requires SameButMeta(t.spent, spends) && forall p :: p in AllProduced(ledger) ==> p.txHash != e.hash
    requires forall x :: Count(t.spent, x) <= LiveCount(initial, commits, x)
    ensures Tracks(initial, commits + [t], ledger + [TransitionTx(spends, next, e.status, e.hash, e.sign, e.size)])
  {
    var after := ledger + [TransitionTx(spends, next, e.status, e.hash, e.sign, e.size)];
    SpendsLive(initial, commits, t, ledger);
    MetaKeepsClaims(ledger, t.spent, spends);
    TransitionLive(ledger, spends, next, e);
    forall c ensures LiveCount(initial, commits + [t], c) <= 1 {
      LiveAfter(initial, commits, t, ledger, next, e.hash, c);
    }
    forall c | LiveCount(initial, commits + [t], c) > 0 ensures Live(after, c) {
      LiveAfter(initial, commits, t, ledger, next, e.hash, c);
      if c !in t.made {
        forall i | 0 <= i < |spends| ensures spends[i].pointer != c.pointer { assert t.spent[i] in t.spent; }
      }
    }
    forall c, d | LiveCount(initial, commits + [t], c) > 0 && LiveCount(initial, commits + [t], d) > 0 && c != d
      ensures c.pointer != d.pointer
    {
      LiveAfter(initial, commits, t, ledger, next, e.hash, c);
      LiveAfter(initial, commits, t, ledger, next, e.hash, d);
      NewApartFromOld(initial, commits, t, ledger, next, e.hash, c, d);
    }
  }

  lemma {:induction false} NewApartFromOld(initial: Cursors, commits: seq<Commit>, t: Commit, ledger: seq<Tx>,
                                           next: Cursors, hash: string, c: BranchCursor, d: BranchCursor)
    requires Tracks(initial, commits, ledger) && t.made == Committed(next, hash) && c != d
    requires forall p :: p in AllProduced(ledger) ==> p.txHash != hash
    requires c in t.made || LiveCount(initial, commits, c) > 0
    requires d in t.made || LiveCount(initial, commits, d) > 0
    ensures c.pointer != d.pointer
  {
    if c in t.made {
      var i :| 0 <= i < |t.made| && t.made[i] == c;
      if d in t.made { var j :| 0 <= j < |t.made| && t.made[j] == d; } else { assert Live(ledger, d); }
    } else {
      assert Live(ledger, c);
      if d in t.made { var j :| 0 <= j < |t.made| && t.made[j] == d; }
    }
  }

  // --- Whole runs --------------------------------------------------------------------------------------

  /** Initial cursors that are distinct live anchors of the ledger the run starts on. */
  ghost predicate StartsOn(r: Runtime, initial: Cursors) {
    && BranchRuntime.Balanced(r) && AllLive(r.commits, initial) && DistinctCursors(initial)
  }

  lemma {:induction false} StartTracks(r: Runtime, initial: Cursors)
    requires StartsOn(r, initial)
    ensures Tracks(initial, [], r.commits)
  {
    forall c ensures Count(initial, c) <= 1 && (Count(initial, c) > 0 <==> c in initial) {
      CountMember(initial, c);
      CountDistinct(initial, c);
    }
  }

  /** Whatever was spent was live: then the recorded transitions are a sealed run on distinct live anchors. */
  lemma {:induction false} RecordedIsSealable(r: Runtime, initial: Cursors, commits: seq<Commit>, log: Log)
    requires StartsOn(r, initial) && SpendsOnlyLive(initial, commits) && Logged(r.commits, commits, log)
    ensures SealableRun(r, log) && BranchRuntime.Balanced(Play(r, log)) && Play(r, log).minted == r.minted
    ensures Tracks(initial, commits, Play(r, log).commits) && OnlyLogged(r.commits, log, Play(r, log).commits)
    decreases |commits|
  {
    if commits == [] {
      StartTracks(r, initial);
    } else {
      var n := |commits| - 1;
      var t, m, e := commits[n], log[n].0, log[n].1;
      Unsnoc(commits);
      Unsnoc(log);
      RecordedIsSealable(r, initial, commits[..n], log[..n]);
      var s := Play(r, log[..n]);
      NewHashHere(r.commits, log[..n], s.commits, e.hash);
      RecordedStep(initial, commits[..n], t, s, m, e);
      PlaySnoc(r, log[..n], m, e);
      StillOnlyLogged(r.commits, log, s.commits, TxOf(m, e));
    }
  }

  lemma {:induction false} NewHashHere(prior: seq<Tx>, log: Log, ledger: seq<Tx>, hash: string)
    requires NewHash(prior, log, hash) && OnlyLogged(prior, log, ledger)
    ensures forall p :: p in AllProduced(ledger) ==> p.txHash != hash
  {
  }

  /** One more recorded transition is sealable, keeps the fuel equation, and the ledger still follows the books. */
  lemma {:induction false} RecordedStep(initial: Cursors, commits: seq<Commit>, t: Commit, s: Runtime, m: Move, e: Env)
    requires Tracks(initial, commits, s.commits) && BranchRuntime.Balanced(s) && Carries(t, m, e)
    requires SpendsOnlyLive(initial, commits) && forall c :: Count(t.spent, c) <= LiveCount(initial, commits, c)
    requires forall p :: p in AllProduced(s.commits) ==> p.txHash != e.hash
    ensures Sealable(s, m, e) && BranchRuntime.Balanced(Perform(s, m, e)) && Perform(s, m, e).minted == s.minted
    ensures Tracks(initial, commits + [t], Perform(s, m, e).commits)
  {
    forall c ensures LiveCount(initial, commits, c) >= 0 { LiveNonNegative(initial, commits, c); }
    SpendsLive(initial, commits, t, s.commits);
    MetaKeepsClaims(s.commits, t.spent, Spends(m));
    TracksStep(initial, commits, t, s.commits, Creates(m).value, Spends(m), e);
    PerformBalanced(s, m, e);
  }

  lemma {:induction false} StillOnlyLogged(prior: seq<Tx>, log: Log, ledger: seq<Tx>, tx: Tx)
    requires log != [] && OnlyLogged(prior, log[..|log| - 1], ledger) && tx.hash == log[|log| - 1].1.hash
    ensures OnlyLogged(prior, log, ledger + [tx])
  {
    var n := |log| - 1;
    Snoc(ledger, tx);
    forall p | p in AllProduced(ledger + [tx])
      ensures p in AllProduced(prior) || exists i :: 0 <= i < |log| && log[i].1.hash == p.txHash
    {
      if p in Produced(tx) {
        assert log[n].1.hash == p.txHash;
      } else if p !in AllProduced(prior) {
        var i :| 0 <= i < n && log[..n][i].1.hash == p.txHash;
        assert log[i].1.hash == p.txHash;
      }
    }
  }

  /** Wherever the driver keeps a cursor, that cursor is a live anchor of the ledger with its fuel. */
  ghost predicate KeptLive(d: Desk, ledger: seq<Tx>) {
    forall c :: Kept(d, c) ==> Live(ledger, c)
  }

  predicate Kept(d: Desk, c: BranchCursor) {
    || c in d.queue || c in Bucket(d.waiting, c.node) || c in d.books.parkedFrom || c in d.completed
    || c in d.books.repeated || c in d.stranded
  }

  lemma {:induction false} HeldAreLive(d: Desk, ledger: seq<Tx>)
    requires Holds(d, []) && Tracks(d.books.initial, d.books.commits, ledger)
    ensures KeptLive(d, ledger)
  {
    assert d.stranded + [] == d.stranded;
    forall c | Kept(d, c) ensures Live(ledger, c) {
      assert QueueBooks.Balanced(d.books, d.queue, d.completed, d.waiting, d.stranded, c);
      CountMember(d.queue, c);
      CountMember(d.books.parkedFrom, c);
      CountMember(d.completed, c);
      CountMember(d.books.repeated, c);
      CountMember(d.stranded, c);
    }
  }

  /**
   * Conservation for a whole traversal, for every graph, executor, fork pattern and failing merge.
   * If what the executor and the merges commit are operations of the runtime, each under a new
   * hash, then every one of them spends distinct live anchors, the fuel equation holds at the end,
   * and every cursor the driver still has is a live anchor with its fuel.
   */
  lemma {:induction false} TraversalConserves(cursors: Cursors, waiting: Buckets, replies: Executor, cfg: Config,
                                              maxTicks: int, r: Runtime, log: Log)
    requires Orderly(waiting) && AllEmpty(waiting) && StartsOn(r, cursors)
    requires Logged(r.commits, Traversal(cursors, waiting, replies, cfg, maxTicks).books.commits, log)
    ensures SealableRun(r, log) && BranchRuntime.Balanced(Play(r, log)) && Play(r, log).minted == r.minted
    ensures KeptLive(Traversal(cursors, waiting, replies, cfg, maxTicks), Play(r, log).commits)
  {
    var d := Traversal(cursors, waiting, replies, cfg, maxTicks);
    TraversalAccounts(cursors, waiting, replies, cfg, maxTicks);
    RecordedIsSealable(r, cursors, d.books.commits, log);
    HeldAreLive(d, Play(r, log).commits);
  }

  lemma {:induction false} SpawnStarts(r: Runtime, draft: BranchCursor, e: Env)
    requires BranchRuntime.Balanced(r) && Sealable(r, Spawn(draft), e)
    ensures StartsOn(Perform(r, Spawn(draft), e), Committed([draft], e.hash))
    ensures Perform(r, Spawn(draft), e).minted == r.minted + draft.fuel
  {
    PerformBalanced(r, Spawn(draft), e);
    TransitionLive(r.commits, Spends(Spawn(draft)), [draft], e);
  }

  /**
   * Spawned and traversed: when nothing else happens to a balanced ledger, the live anchors, the
   * step costs, the drained fuel and the dropped shares grow together by exactly the fuel that the
   * first cursor was spawned with.
   */
  lemma {:induction false} SpawnedTraversalConserves(r: Runtime, draft: BranchCursor, spawn: Env, waiting: Buckets,
                                                     replies: Executor, cfg: Config, maxTicks: int, log: Log)
    requires Orderly(waiting) && AllEmpty(waiting)
    requires BranchRuntime.Balanced(r) && Sealable(r, Spawn(draft), spawn)
    requires Logged(Perform(r, Spawn(draft), spawn).commits,
                    Traversal(Committed([draft], spawn.hash), waiting, replies, cfg, maxTicks).books.commits, log)
    ensures SealableRun(Perform(r, Spawn(draft), spawn), log)
    ensures var s := Play(Perform(r, Spawn(draft), spawn), log);
            LiveFuel(s.commits) + s.costs + s.drained + s.dropped == r.minted + draft.fuel
  {
    SpawnStarts(r, draft, spawn);
    TraversalConserves(Committed([draft], spawn.hash), waiting, replies, cfg, maxTicks,
                       Perform(r, Spawn(draft), spawn), log);
  }
}
