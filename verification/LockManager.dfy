/**
 * `ResourceLockManager` (arch/contract/protocol/executor.py): reference-counted re-entrant locks
 * that are deleted and recreated, used by any number of threads with timeouts.
 *
 * Each event below is one atomic step of one thread: a critical section under `_meta_lock`, or
 * the acquisition of a lock object.
 */
module LockManager {
  import opened Wrappers
  import opened Lex
  import opened MapSums
  import opened Sequences

  type Key = Text
  type Tid = nat
  type LockId = nat

  /** An `RLock` object: free, or owned by a thread that entered it `count` times. */
  datatype Owner = Free | Owned(tid: Tid, count: nat)

  /**
   * A thread inside `lock()` calls: `held` lists the acquired keys of all its calls, oldest
   * first; `todo` are the keys its current call still wants; `wait` is the lock object it got
   * from `_get_lock` for `todo[0]` and has not acquired yet.
   */
  datatype Thread = Thread(held: seq<Key>, todo: seq<Key>, wait: Option<LockId>)

  datatype State = State(locks: map<Key, LockId>, refcounts: map<Key, int>, owners: map<LockId, Owner>,
                         nextId: LockId, threads: map<Tid, Thread>)

  datatype Event =
    | Enter(t: Tid, keys: seq<Key>)   // `lock(*keys)` with the keys sorted and without repetition
    | Get(t: Tid)                     // `_get_lock`
    | Acquire(t: Tid)                 // `acquire` succeeds
    | Timeout(t: Tid)                 // `acquire` fails; the call raises
    | Leave(t: Tid)                   // `_release_lock` of the most recently acquired key

  ghost predicate Enabled(s: State, e: Event) {
    && e.t in s.threads
    && var th := s.threads[e.t];
    match e
    case Enter(_, keys) => th.todo == [] && th.wait.None? && Sorted(keys)
    case Get(_) => th.todo != [] && th.wait.None?
    case Acquire(_) => th.wait.Some? && th.wait.value in s.owners && CanEnter(s.owners[th.wait.value], e.t)
    case Timeout(_) => th.wait.Some?
    case Leave(_) => th.held != [] && th.todo == [] && th.wait.None?
  }

  predicate CanEnter(o: Owner, t: Tid) {
    o.Free? || o.tid == t
  }

  function Entered(o: Owner, t: Tid): Owner {
    if o.Free? then Owned(t, 1) else Owned(t, o.count + 1)
  }

  function Exited(o: Owner): Owner {
    if o.Owned? && o.count > 1 then Owned(o.tid, o.count - 1) else Free
  }

  /** How often a thread counts towards the reference count of `k`. */
  function Uses(th: Thread, k: Key): nat {
    Count(th.held, k) + (if th.wait.Some? && th.todo != [] && th.todo[0] == k then 1 else 0)
  }

  // --- The critical sections -------------------------------------------------------------------

  function GetLock(s: State, k: Key): State {
    var t := if k in s.locks then s
             else s.(locks := s.locks[k := s.nextId], owners := s.owners[s.nextId := Free], nextId := s.nextId + 1);
    t.(refcounts := t.refcounts[k := (if k in t.refcounts then t.refcounts[k] else 0) + 1])
  }

  /** One reference less; the last one deletes the lock. */
  function DropRef(s: State, k: Key): State
    requires k in s.refcounts
  {
    if s.refcounts[k] - 1 == 0 then s.(locks := s.locks - {k}, refcounts := s.refcounts - {k})
    else s.(refcounts := s.refcounts[k := s.refcounts[k] - 1])
  }

  function Released(s: State, k: Key): State {
    if k in s.locks && k in s.refcounts && s.locks[k] in s.owners then
      DropRef(s.(owners := s.owners[s.locks[k] := Exited(s.owners[s.locks[k]])]), k)
    else s
  }

  function SetThread(s: State, t: Tid, th: Thread): State {
    s.(threads := s.threads[t := th])
  }

  function Step(s: State, e: Event): State
    requires Enabled(s, e)
  {
    var th := s.threads[e.t];
    match e
    case Enter(t, keys) => SetThread(s, t, th.(todo := keys))
    case Get(t) =>
      var r := GetLock(s, th.todo[0]);
      SetThread(r, t, th.(wait := Some(r.locks[th.todo[0]])))
    case Acquire(t) =>
      var o := th.wait.value;
      var r := s.(owners := s.owners[o := Entered(s.owners[o], t)]);
      if th.todo == [] then r else SetThread(r, t, Thread(th.held + [th.todo[0]], th.todo[1..], None))
    case Timeout(t) =>
      if th.todo == [] || th.todo[0] !in s.refcounts then s
      else SetThread(DropRef(s, th.todo[0]), t, Thread(th.held, [], None))
    case Leave(t) =>
      SetThread(Released(s, th.held[|th.held| - 1]), t, th.(held := th.held[..|th.held| - 1]))
  }

  // --- The invariant ------------------------------------------------------------------------------

  ghost function UsesOf(s: State, k: Key): map<Tid, int> {
    map t | t in s.threads :: Uses(s.threads[t], k)
  }

  /** How many threads hold or wait for `k`, counting re-entries. */
  ghost function Interest(s: State, k: Key): int {
    Sum(UsesOf(s, k))
  }

  ghost predicate Holds(s: State, t: Tid, k: Key) {
    t in s.threads && Count(s.threads[t].held, k) > 0
  }

  /** The lock object of `k` is owned exactly as the threads' held lists say. */
  ghost predicate OwnerExact(s: State, k: Key)
    requires k in s.locks
  {
    && s.locks[k] in s.owners
    && match s.owners[s.locks[k]]
       case Free => forall t :: t in s.threads ==> Count(s.threads[t].held, k) == 0
       case Owned(o, n) =>
         && n > 0 && o in s.threads
         && (forall t :: t in s.threads ==> Count(s.threads[t].held, k) == if t == o then n else 0)
  }

  ghost predicate WaitExact(s: State, t: Tid)
    requires t in s.threads
  {
    s.threads[t].wait.Some? ==>
      && s.threads[t].todo != []
      && s.threads[t].todo[0] in s.locks && s.threads[t].wait.value == s.locks[s.threads[t].todo[0]]
  }

  /** Each reference count is the number of holders plus waiters; both maps have the same keys. */
  ghost predicate RefsExact(s: State) {
    && s.locks.Keys == s.refcounts.Keys
    && (forall k :: k in s.refcounts ==> s.refcounts[k] > 0)
    && (forall k :: Interest(s, k) == RefCount(s, k))
  }

  function RefCount(s: State, k: Key): int {
    if k in s.refcounts then s.refcounts[k] else 0
  }

  /** Live keys have distinct lock objects, each owned as the threads say. */
  ghost predicate ObjectsExact(s: State) {
    && (forall k :: k in s.locks ==> OwnerExact(s, k))
    && (forall j, k :: j in s.locks && k in s.locks && s.locks[j] == s.locks[k] ==> j == k)
    && (forall o :: o in s.owners ==> o < s.nextId)
  }

  /** A waiting thread waits on the current lock object of the key it wants. */
  ghost predicate WaitsExact(s: State) {
    forall t :: t in s.threads ==> WaitExact(s, t)
  }

  ghost predicate Inv(s: State) {
    RefsExact(s) && ObjectsExact(s) && WaitsExact(s)
  }

  /** Changing one thread changes the interest in a key by that thread's difference. */
  lemma {:induction false} InterestUpdate(s: State, r: State, t: Tid, th: Thread, k: Key)
    requires t in s.threads && r.threads == s.threads[t := th]
    ensures Interest(r, k) == Interest(s, k) - Uses(s.threads[t], k) + Uses(th, k)
  {
    SumUpdate(UsesOf(s, k), t, Uses(th, k));
    assert UsesOf(r, k) == UsesOf(s, k)[t := Uses(th, k)];
  }

  lemma {:induction false} UsesWithin(s: State, t: Tid, k: Key)
    requires t in s.threads
    ensures Interest(s, k) >= Uses(s.threads[t], k)
  {
    SumAtLeast(UsesOf(s, k), t);
  }

  /** Whatever a thread holds or waits for exists in both dictionaries. */
  lemma {:induction false} UsedExists(s: State, t: Tid, k: Key)
    requires Inv(s) && t in s.threads && Uses(s.threads[t], k) > 0
    ensures k in s.locks && k in s.refcounts && s.refcounts[k] >= Uses(s.threads[t], k)
  {
    UsesWithin(s, t, k);
  }

  // --- Every step keeps the invariant ----------------------------------------------------------

  lemma {:induction false} EnterKeeps(s: State, e: Event)
    requires Inv(s) && e.Enter? && Enabled(s, e)
    ensures Inv(Step(s, e))
  {
    var r := Step(s, e);
    forall k ensures Interest(r, k) == Interest(s, k) { InterestUpdate(s, r, e.t, r.threads[e.t], k); }
    assert RefsExact(r);
    forall k | k in r.locks ensures OwnerExact(r, k) { assert OwnerExact(s, k); }
    forall t | t in r.threads ensures WaitExact(r, t) { assert WaitExact(s, t); }
  }

  lemma {:induction false} GetRefs(s: State, e: Event)
    requires Inv(s) && e.Get? && Enabled(s, e)
    ensures RefsExact(Step(s, e))
  {
    var r, key := Step(s, e), s.threads[e.t].todo[0];
    forall k ensures Interest(r, k) == RefCount(r, k) {
      InterestUpdate(s, r, e.t, r.threads[e.t], k);
      assert Interest(s, k) == RefCount(s, k);
    }
  }

  lemma {:induction false} Unheld(s: State, k: Key)
    requires Inv(s) && k !in s.locks
    ensures forall t :: t in s.threads ==> Count(s.threads[t].held, k) == 0
  {
    forall t | t in s.threads ensures Count(s.threads[t].held, k) == 0 {
      if Count(s.threads[t].held, k) > 0 { UsedExists(s, t, k); }
    }
  }

  lemma {:induction false} GetObjects(s: State, e: Event)
    requires Inv(s) && e.Get? && Enabled(s, e)
    ensures ObjectsExact(Step(s, e)) && WaitsExact(Step(s, e))
  {
    var r, key := Step(s, e), s.threads[e.t].todo[0];
    if key !in s.locks { Unheld(s, key); }
    forall t ensures t in s.threads ==> t in r.threads && r.threads[t].held == s.threads[t].held {}
    forall k | k in r.locks ensures OwnerExact(r, k) { GetOwner(s, e, k); }
    forall j, k | j in r.locks && k in r.locks && r.locks[j] == r.locks[k] ensures j == k {
      assert j in s.locks ==> OwnerExact(s, j);
      assert k in s.locks ==> OwnerExact(s, k);
    }
    forall t | t in r.threads ensures WaitExact(r, t) { assert WaitExact(s, t); }
  }

  lemma {:induction false} GetOwner(s: State, e: Event, k: Key)
    requires Inv(s) && e.Get? && Enabled(s, e) && k in Step(s, e).locks
    ensures OwnerExact(Step(s, e), k)
  {
    if k in s.locks {
      assert OwnerExact(s, k);
    } else {
      Unheld(s, k);
    }
    var r := Step(s, e);
    forall t ensures t in s.threads ==> t in r.threads && r.threads[t].held == s.threads[t].held {}
  }

  lemma {:induction false} AcquireRefs(s: State, e: Event)
    requires Inv(s) && e.Acquire? && Enabled(s, e)
    ensures RefsExact(Step(s, e))
  {
    var th := s.threads[e.t];
    assert WaitExact(s, e.t);
    var r := Step(s, e);
    forall k ensures Interest(r, k) == RefCount(r, k) {
      CountSnoc(th.held, th.todo[0], k);
      InterestUpdate(s, r, e.t, r.threads[e.t], k);
      assert Interest(s, k) == RefCount(s, k);
    }
  }

  lemma {:induction false} AcquireObjects(s: State, e: Event)
    requires Inv(s) && e.Acquire? && Enabled(s, e)
    ensures ObjectsExact(Step(s, e)) && WaitsExact(Step(s, e))
  {
    var th := s.threads[e.t];
    assert WaitExact(s, e.t);
    var r, key := Step(s, e), th.todo[0];
    forall k | k in r.locks ensures OwnerExact(r, k) { AcquireOwner(s, e, k); }
    forall t | t in r.threads ensures WaitExact(r, t) { assert WaitExact(s, t); }
  }

  lemma {:induction false} AcquireOwner(s: State, e: Event, k: Key)
    requires Inv(s) && e.Acquire? && Enabled(s, e) && k in Step(s, e).locks
    ensures OwnerExact(Step(s, e), k)
  {
    var th := s.threads[e.t];
    assert OwnerExact(s, k) && WaitExact(s, e.t);
    CountSnoc(th.held, th.todo[0], k);
  }

  /** A thread's use of `key` and one reference go together. */
  lemma {:induction false} DropRefs(s: State, t: Tid, th: Thread, key: Key)
    requires RefsExact(s) && key in s.refcounts && t in s.threads
    requires forall k :: Uses(th, k) == Uses(s.threads[t], k) - if k == key then 1 else 0
    ensures RefsExact(SetThread(DropRef(s, key), t, th))
  {
    var r := SetThread(DropRef(s, key), t, th);
    forall k ensures Interest(r, k) == RefCount(r, k) {
      InterestUpdate(s, r, t, th, k);
      assert Interest(s, k) == RefCount(s, k);
    }
  }

  lemma {:induction false} TimeoutRefs(s: State, e: Event)
    requires Inv(s) && e.Timeout? && Enabled(s, e)
    ensures RefsExact(Step(s, e))
    ensures Step(s, e).threads[e.t] == Thread(s.threads[e.t].held, [], None)
  {
    assert WaitExact(s, e.t);
    DropRefs(s, e.t, Thread(s.threads[e.t].held, [], None), s.threads[e.t].todo[0]);
  }

  /** Dropping a reference only removes a lock that nobody uses any more. */
  lemma {:induction false} WaitersKeepLock(s: State, r: State, key: Key)
    requires WaitsExact(s) && RefsExact(r)
    requires forall t :: t in r.threads && r.threads[t].wait.Some? ==> t in s.threads && s.threads[t] == r.threads[t]
    requires forall k :: k in s.locks && k != key ==> k in r.locks && r.locks[k] == s.locks[k]
    requires key in r.locks ==> key in s.locks && r.locks[key] == s.locks[key]
    ensures WaitsExact(r)
  {
    forall t | t in r.threads ensures WaitExact(r, t) {
      if r.threads[t].wait.Some? {
        assert WaitExact(s, t);
        assert Uses(r.threads[t], r.threads[t].todo[0]) > 0;
        UsesWithin(r, t, r.threads[t].todo[0]);
      }
    }
  }

  lemma {:induction false} TimeoutObjects(s: State, e: Event)
    requires Inv(s) && e.Timeout? && Enabled(s, e)
    ensures ObjectsExact(Step(s, e)) && WaitsExact(Step(s, e))
  {
    assert WaitExact(s, e.t);
    var r := Step(s, e);
    TimeoutRefs(s, e);
    forall k | k in r.locks ensures OwnerExact(r, k) { assert OwnerExact(s, k); }
    WaitersKeepLock(s, r, s.threads[e.t].todo[0]);
  }

  /** Releasing finds the lock, owned by the releasing thread: `release()` cannot fail. */
  lemma {:induction false} LeaveOwns(s: State, t: Tid)
    requires Inv(s) && t in s.threads && s.threads[t].held != []
    ensures var key := s.threads[t].held[|s.threads[t].held| - 1];
            && key in s.locks && key in s.refcounts && s.locks[key] in s.owners
            && s.owners[s.locks[key]] == Owned(t, Count(s.threads[t].held, key))
  {
    var held := s.threads[t].held;
    var key := held[|held| - 1];
    assert Count(held, key) > 0;
    UsedExists(s, t, key);
    assert OwnerExact(s, key);
  }

  lemma {:induction false} LeaveRefs(s: State, e: Event)
    requires Inv(s) && e.Leave? && Enabled(s, e)
    ensures RefsExact(Step(s, e))
  {
    var th := s.threads[e.t];
    var n := |th.held| - 1;
    var key := th.held[n];
    LeaveOwns(s, e.t);
    var mid := s.(owners := s.owners[s.locks[key] := Exited(s.owners[s.locks[key]])]);
    forall k ensures Interest(mid, k) == RefCount(mid, k) {
      assert UsesOf(mid, k) == UsesOf(s, k);
      assert Interest(s, k) == RefCount(s, k);
    }
    DropRefs(mid, e.t, th.(held := th.held[..n]), key);
  }

  lemma {:induction false} LeaveObjects(s: State, e: Event)
    requires Inv(s) && e.Leave? && Enabled(s, e)
    ensures ObjectsExact(Step(s, e)) && WaitsExact(Step(s, e))
  {
    var th := s.threads[e.t];
    var n := |th.held| - 1;
    var r, key := Step(s, e), th.held[n];
    LeaveOwns(s, e.t);
    LeaveRefs(s, e);
    forall k | k in r.locks ensures OwnerExact(r, k) { LeaveOwner(s, e, k); }
    WaitersKeepLock(s, r, key);
  }

  lemma {:induction false} LeaveOwner(s: State, e: Event, k: Key)
    requires Inv(s) && e.Leave? && Enabled(s, e) && k in Step(s, e).locks
    ensures OwnerExact(Step(s, e), k)
  {
    var key := s.threads[e.t].held[|s.threads[e.t].held| - 1];
    LeaveOwns(s, e.t);
    LeaveCounts(s, e, k);
    assert OwnerExact(s, key) && OwnerExact(s, k);
    if k != key {
      assert s.locks[k] != s.locks[key];
      assert Step(s, e).owners[s.locks[k]] == s.owners[s.locks[k]];
    } else {
      assert Step(s, e).owners[s.locks[k]] == Exited(s.owners[s.locks[k]]);
    }
  }

  /** Leaving takes one holding of the released key from the thread, and nothing from anybody else. */
  lemma {:induction false} LeaveCounts(s: State, e: Event, k: Key)
    requires Inv(s) && e.Leave? && Enabled(s, e)
    ensures var r := Step(s, e);
            && r.threads.Keys == s.threads.Keys
            && (forall t :: t in s.threads && t != e.t ==> r.threads[t] == s.threads[t])
            && Count(s.threads[e.t].held, k)
               == Count(r.threads[e.t].held, k) + if k == s.threads[e.t].held[|s.threads[e.t].held| - 1] then 1 else 0
  {
  }

  lemma {:induction false} StepKeeps(s: State, e: Event)
    requires Inv(s) && Enabled(s, e)
    ensures Inv(Step(s, e))
  {
    match e
    case Enter(_, _) => EnterKeeps(s, e);
    case Get(_) => GetRefs(s, e); GetObjects(s, e);
    case Acquire(_) => AcquireRefs(s, e); AcquireObjects(s, e);
    case Timeout(_) => TimeoutRefs(s, e); TimeoutObjects(s, e);
    case Leave(_) => LeaveRefs(s, e); LeaveObjects(s, e);
  }

  // --- Runs ---------------------------------------------------------------------------------------

  /** Every event of the interleaving is enabled when it happens. */
  ghost predicate Possible(s: State, events: seq<Event>)
    decreases |events|
  {
    events == [] || (Enabled(s, events[0]) && Possible(Step(s, events[0]), events[1..]))
  }

  ghost function Final(s: State, events: seq<Event>): State
    requires Possible(s, events)
    decreases |events|
  {
    if events == [] then s else Final(Step(s, events[0]), events[1..])
  }

  ghost predicate Idle(th: Thread) {
    th == Thread([], [], None)
  }

  /** No lock exists and every thread is outside. */
  ghost predicate Fresh(s: State) {
    && s.locks == map[] && s.refcounts == map[] && s.owners == map[]
    && forall t :: t in s.threads ==> Idle(s.threads[t])
  }

  lemma {:induction false} FreshInv(s: State)
    requires Fresh(s)
    ensures Inv(s)
  {
    forall k ensures Interest(s, k) == 0 {
      SumZero(UsesOf(s, k));
    }
  }

  lemma {:induction false} RunKeeps(s: State, events: seq<Event>)
    requires Inv(s) && Possible(s, events)
    ensures Inv(Final(s, events))
    decreases |events|
  {
    if events != [] {
      StepKeeps(s, events[0]);
      RunKeeps(Step(s, events[0]), events[1..]);
    }
  }

  /**
   * Mutual exclusion: over every interleaving, nested calls and timeouts included, at most one
   * thread holds a key, although its lock object may have been deleted and recreated meanwhile.
   */
  lemma {:induction false} MutualExclusion(s: State, events: seq<Event>, t: Tid, u: Tid, k: Key)
    requires Fresh(s) && Possible(s, events)
    requires Holds(Final(s, events), t, k) && Holds(Final(s, events), u, k)
    ensures t == u
  {
    FreshInv(s);
    RunKeeps(s, events);
    var r := Final(s, events);
    UsedExists(r, t, k);
    assert OwnerExact(r, k);
  }

  /** The dictionaries hold nothing exactly when no thread holds or waits for anything. */
  lemma {:induction false} EmptyIffUnused(s: State, events: seq<Event>)
    requires Fresh(s) && Possible(s, events)
    ensures var r := Final(s, events);
            && r.locks.Keys == r.refcounts.Keys
            && (r.refcounts == map[] <==> forall t, k :: t in r.threads ==> Uses(r.threads[t], k) == 0)
  {
    FreshInv(s);
    RunKeeps(s, events);
    var r := Final(s, events);
    if forall t, k :: t in r.threads ==> Uses(r.threads[t], k) == 0 {
      forall k ensures k !in r.refcounts {
        SumZero(UsesOf(r, k));
        assert Interest(r, k) == RefCount(r, k);
      }
    }
    if r.refcounts == map[] {
      forall t, k | t in r.threads ensures Uses(r.threads[t], k) == 0 {
        UsesWithin(r, t, k);
      }
    }
  }

  // --- Freedom from deadlock ------------------------------------------------------------------------

  /** `t` is blocked on a lock object that another thread `u` owns. */
  ghost predicate WaitsFor(s: State, t: Tid, u: Tid) {
    && t in s.threads && s.threads[t].wait.Some? && s.threads[t].wait.value in s.owners
    && t != u && s.owners[s.threads[t].wait.value].Owned? && s.owners[s.threads[t].wait.value].tid == u
  }

  ghost predicate WaitChain(s: State, p: seq<Tid>) {
    |p| >= 2 && forall i :: 0 <= i < |p| - 1 ==> WaitsFor(s, p[i], p[i + 1])
  }

  /** A wanted key that is already held (the locks are re-entrant), or above everything that is. */
  ghost predicate InOrder(held: seq<Key>, k: Key) {
    k in held || forall h :: h in held ==> Lt(h, k)
  }

  /** What a thread still wants is sorted, and each key is held already or above everything held. */
  ghost predicate Ascending(th: Thread) {
    Sorted(th.todo) && forall k :: k in th.todo ==> InOrder(th.held, k)
  }

  ghost predicate Ordered(s: State) {
    forall t :: t in s.threads ==> Ascending(s.threads[t])
  }

  /** A call each of whose keys is held already by its thread or above everything the thread holds. */
  ghost predicate StartsInOrder(s: State, e: Event) {
    e.Enter? && e.t in s.threads ==> forall k :: k in e.keys ==> InOrder(s.threads[e.t].held, k)
  }

  lemma {:induction false} StepOrdered(s: State, e: Event)
    requires Ordered(s) && Enabled(s, e) && StartsInOrder(s, e)
    ensures Ordered(Step(s, e))
  {
    var r, th := Step(s, e), s.threads[e.t];
    forall t | t in r.threads ensures Ascending(r.threads[t]) {
      assert Ascending(s.threads[t]);
      if t == e.t && e.Acquire? && th.todo != [] {
        forall k | k in th.todo[1..] ensures InOrder(th.held + [th.todo[0]], k) {
          var i :| 0 <= i < |th.todo[1..]| && th.todo[1..][i] == k;
          assert th.todo[i + 1] == k && InOrder(th.held, k);
        }
      }
    }
  }

  /** The key a blocked thread wants is held by the thread it waits for, and not by itself. */
  lemma {:induction false} BlockedWant(s: State, t: Tid, u: Tid)
    requires Inv(s) && WaitsFor(s, t, u)
    ensures u in s.threads && s.threads[t].todo != []
    ensures s.threads[t].todo[0] in s.threads[u].held && s.threads[t].todo[0] !in s.threads[t].held
  {
    assert WaitExact(s, t);
    var k := s.threads[t].todo[0];
    assert OwnerExact(s, k);
    CountMember(s.threads[u].held, k);
    CountMember(s.threads[t].held, k);
  }

  /** Along two consecutive wait edges the wanted key grows. */
  lemma {:induction false} WantGrows(s: State, t: Tid, u: Tid, v: Tid)
    requires Inv(s) && Ordered(s) && WaitsFor(s, t, u) && WaitsFor(s, u, v)
    ensures s.threads[t].todo != [] && s.threads[u].todo != []
    ensures Lt(s.threads[t].todo[0], s.threads[u].todo[0])
  {
    BlockedWant(s, t, u);
    BlockedWant(s, u, v);
    assert Ascending(s.threads[u]) && s.threads[u].todo[0] in s.threads[u].todo;
  }

  lemma {:induction false} ChainGrows(s: State, p: seq<Tid>, v: Tid)
    requires Inv(s) && Ordered(s) && WaitChain(s, p) && WaitsFor(s, p[|p| - 1], v)
    ensures p[0] in s.threads && s.threads[p[0]].todo != [] && s.threads[p[|p| - 1]].todo != []
    ensures Lt(s.threads[p[0]].todo[0], s.threads[p[|p| - 1]].todo[0])
    decreases |p|
  {
    assert WaitsFor(s, p[0], p[1]);
    if |p| > 2 {
      var q := p[1..];
      forall i | 0 <= i < |q| - 1 ensures WaitsFor(s, q[i], q[i + 1]) { assert WaitsFor(s, p[i + 1], p[i + 2]); }
      assert WaitsFor(s, p[1], p[2]);
      WantGrows(s, p[0], p[1], p[2]);
      ChainGrows(s, q, v);
      LtTransitive(s.threads[p[0]].todo[0], s.threads[p[1]].todo[0], s.threads[p[|p| - 1]].todo[0]);
    } else {
      WantGrows(s, p[0], p[1], v);
    }
  }

  ghost predicate OrderedRun(s: State, events: seq<Event>)
    requires Possible(s, events)
    decreases |events|
  {
    events == [] || (StartsInOrder(s, events[0]) && OrderedRun(Step(s, events[0]), events[1..]))
  }

  lemma {:induction false} RunOrdered(s: State, events: seq<Event>)
    requires Inv(s) && Ordered(s) && Possible(s, events) && OrderedRun(s, events)
    ensures Inv(Final(s, events)) && Ordered(Final(s, events))
    decreases |events|
  {
    if events != [] {
      StepKeeps(s, events[0]);
      StepOrdered(s, events[0]);
      RunOrdered(Step(s, events[0]), events[1..]);
    }
  }

  /**
   * No wait cycle: calls whose keys are held already or above everything their thread holds never
   * wait in a circle.
   */
  lemma {:induction false} NoWaitCycle(s: State, events: seq<Event>, p: seq<Tid>)
    requires Fresh(s) && Possible(s, events) && OrderedRun(s, events)
    requires WaitChain(Final(s, events), p)
    ensures p[0] != p[|p| - 1]
  {
    FreshInv(s);
    RunOrdered(s, events);
    var r := Final(s, events);
    if p[0] == p[|p| - 1] {
      assert WaitsFor(r, p[0], p[1]);
      ChainGrows(r, p, p[1]);
      LtIrreflexive(r.threads[p[0]].todo[0]);
    }
  }

  /** A run whose nested calls ask only for keys their thread holds is ordered; so is one without nested calls. */
  lemma {:induction false} NonNestedOrdered(s: State, events: seq<Event>)
    requires Possible(s, events) && NestedOnlyReentrant(s, events)
    ensures OrderedRun(s, events)
    decreases |events|
  {
    if events != [] { NonNestedOrdered(Step(s, events[0]), events[1..]); }
  }

  ghost predicate NestedOnlyReentrant(s: State, events: seq<Event>)
    requires Possible(s, events)
    decreases |events|
  {
    events == [] ||
    (&& (events[0].Enter? && s.threads[events[0].t].held != [] ==>
           forall k :: k in events[0].keys ==> k in s.threads[events[0].t].held)
     && NestedOnlyReentrant(Step(s, events[0]), events[1..]))
  }

  /** Among finitely many waiting threads one wants a greatest key. */
  lemma {:induction false} GreatestWant(s: State, ts: set<Tid>) returns (m: Tid)
    requires ts != {} && ts <= s.threads.Keys && forall t :: t in ts ==> s.threads[t].todo != []
    ensures m in ts && forall t :: t in ts ==> Le(s.threads[t].todo[0], s.threads[m].todo[0])
    decreases ts
  {
    m :| m in ts;
    if ts != {m} {
      var n := GreatestWant(s, ts - {m});
      LtTotal(s.threads[m].todo[0], s.threads[n].todo[0]);
      if Le(s.threads[m].todo[0], s.threads[n].todo[0]) {
        m := n;
      } else {
        forall t | t in ts ensures Le(s.threads[t].todo[0], s.threads[m].todo[0]) {
          if t != m && s.threads[t].todo[0] != s.threads[n].todo[0] {
            LtTransitive(s.threads[t].todo[0], s.threads[n].todo[0], s.threads[m].todo[0]);
          }
        }
      }
    }
  }

  /**
   * Progress without timeouts: as long as some thread is inside a call, some thread can take its
   * next step towards leaving.
   */
  lemma {:induction false} SomeThreadProceeds(s: State, events: seq<Event>)
    requires Fresh(s) && Possible(s, events) && OrderedRun(s, events)
    requires exists t :: t in Final(s, events).threads && !Idle(Final(s, events).threads[t])
    ensures exists e :: Enabled(Final(s, events), e) && (e.Get? || e.Acquire? || e.Leave?)
  {
    FreshInv(s);
    RunOrdered(s, events);
    var r := Final(s, events);
    if t :| t in r.threads && !Idle(r.threads[t]) && r.threads[t].wait.None? {
      assert if r.threads[t].todo == [] then Enabled(r, Leave(t)) else Enabled(r, Get(t));
    } else {
      var ts := set t | t in r.threads && r.threads[t].wait.Some?;
      forall t | t in ts ensures r.threads[t].todo != [] { assert WaitExact(r, t); }
      var w :| w in r.threads && !Idle(r.threads[w]);
      assert w in ts;
      var m := GreatestWant(r, ts);
      GreatestProceeds(r, m);
    }
  }

  /** The thread that wants the greatest key, or the one it waits for, can acquire. */
  lemma {:induction false} GreatestProceeds(r: State, m: Tid)
    requires Inv(r) && Ordered(r) && m in r.threads && r.threads[m].wait.Some?
    requires forall t :: t in r.threads && !Idle(r.threads[t]) ==> r.threads[t].wait.Some?
    requires forall t :: t in r.threads && r.threads[t].wait.Some? ==>
      r.threads[t].todo != [] && Le(r.threads[t].todo[0], r.threads[m].todo[0])
    ensures exists e :: Enabled(r, e) && e.Acquire?
  {
    WaitIsOwned(r, m);
    if !Enabled(r, Acquire(m)) {
      var u := r.owners[r.threads[m].wait.value].tid;
      assert WaitsFor(r, m, u);
      BlockedWant(r, m, u);
      assert !Idle(r.threads[u]);
      WaitIsOwned(r, u);
      if !Enabled(r, Acquire(u)) {
        WantGrows(r, m, u, r.owners[r.threads[u].wait.value].tid);
        LtAsymmetric(r.threads[m].todo[0], r.threads[u].todo[0]);
        LtIrreflexive(r.threads[m].todo[0]);
      }
    }
  }

  /** A waiting thread can acquire its lock object, or another thread owns it. */
  lemma {:induction false} WaitIsOwned(r: State, t: Tid)
    requires Inv(r) && t in r.threads && r.threads[t].wait.Some?
    ensures r.threads[t].wait.value in r.owners
    ensures Enabled(r, Acquire(t)) ||
            (r.owners[r.threads[t].wait.value].Owned? && r.owners[r.threads[t].wait.value].tid != t)
  {
    assert WaitExact(r, t);
    assert OwnerExact(r, r.threads[t].todo[0]);
  }

  // --- Nested calls can deadlock ------------------------------------------------------------------

  lemma {:induction false} RunAppend(s: State, a: seq<Event>, b: seq<Event>)
    requires Possible(s, a) && Possible(Final(s, a), b)
    ensures Possible(s, a + b) && Final(s, a + b) == Final(Final(s, a), b)
    decreases |a|
  {
    if a == [] {
      assert a + b == b;
    } else {
      assert (a + b)[1..] == a[1..] + b;
      RunAppend(Step(s, a[0]), a[1..], b);
    }
  }

  // --- Everybody leaves --------------------------------------------------------------------------------

  /** A step towards leaving: not a new call, and not a timeout. */
  predicate Onward(e: Event) {
    e.Get? || e.Acquire? || e.Leave?
  }

  /** How many such steps a thread has left: get, acquire and release each key it wants, and release what it holds. */
  function Work(th: Thread): int {
    3 * |th.todo| + |th.held| - (if th.wait.Some? then 1 else 0)
  }

  ghost function WorkOf(s: State): map<Tid, int> {
    map t | t in s.threads :: Work(s.threads[t])
  }

  ghost function TotalWork(s: State): int {
    Sum(WorkOf(s))
  }

  lemma {:induction false} OnwardStep(s: State, e: Event)
    requires Inv(s) && Enabled(s, e) && Onward(e)
    ensures TotalWork(Step(s, e)) == TotalWork(s) - 1
  {
    var r := Step(s, e);
    OwnWork(s, e);
    WorkUpdate(s, r, e.t, r.threads[e.t]);
  }

  lemma {:induction false} OwnWork(s: State, e: Event)
    requires Inv(s) && Enabled(s, e) && Onward(e)
    ensures e.t in Step(s, e).threads && Step(s, e).threads == s.threads[e.t := Step(s, e).threads[e.t]]
    ensures Work(Step(s, e).threads[e.t]) == Work(s.threads[e.t]) - 1
  {
    assert WaitExact(s, e.t);
  }

  lemma {:induction false} WorkUpdate(s: State, r: State, t: Tid, th: Thread)
    requires t in s.threads && r.threads == s.threads[t := th]
    ensures TotalWork(r) == TotalWork(s) - Work(s.threads[t]) + Work(th)
  {
    SumUpdate(WorkOf(s), t, Work(th));
    assert WorkOf(r) == WorkOf(s)[t := Work(th)];
  }

  lemma {:induction false} OnwardRun(s: State, events: seq<Event>)
    requires Inv(s) && Possible(s, events) && forall e :: e in events ==> Onward(e)
    ensures TotalWork(Final(s, events)) == TotalWork(s) - |events|
    decreases |events|
  {
    if events != [] {
      StepKeeps(s, events[0]);
      OnwardStep(s, events[0]);
      OnwardRun(Step(s, events[0]), events[1..]);
    }
  }

  /** Nothing is left to do exactly when every thread is outside. */
  lemma {:induction false} NoWorkIff(s: State)
    requires Inv(s)
    ensures TotalWork(s) >= 0
    ensures TotalWork(s) == 0 <==> forall t :: t in s.threads ==> Idle(s.threads[t])
  {
    forall t | t in s.threads ensures Work(s.threads[t]) >= 0 && (Work(s.threads[t]) == 0 <==> Idle(s.threads[t])) {
      assert WaitExact(s, t);
    }
    SumNonNegative(WorkOf(s));
    if t :| t in s.threads && !Idle(s.threads[t]) {
      SumAtLeast(WorkOf(s), t);
    } else {
      SumZero(WorkOf(s));
    }
  }

  lemma {:induction false} OrderedAppend(s: State, a: seq<Event>, b: seq<Event>)
    requires Possible(s, a) && Possible(Final(s, a), b) && OrderedRun(s, a) && OrderedRun(Final(s, a), b)
    requires Possible(s, a + b)
    ensures OrderedRun(s, a + b)
    decreases |a|
  {
    if a == [] {
      assert a + b == b;
    } else {
      assert (a + b)[1..] == a[1..] + b;
      OrderedAppend(Step(s, a[0]), a[1..], b);
    }
  }

  /**
   * Everybody leaves: from any state of an ordered run, once no new call starts and nobody times
   * out, whatever the scheduler does, every step uses up one unit of work; as long as some thread
   * is inside a call some step is possible; and after exactly as many steps as there was work,
   * every thread is outside.
   */
  lemma {:induction false} EverybodyLeaves(s: State, events: seq<Event>, more: seq<Event>)
    requires Fresh(s) && Possible(s, events) && OrderedRun(s, events)
    requires Possible(Final(s, events), more) && forall e :: e in more ==> Onward(e)
    ensures var r, f := Final(s, events), Final(Final(s, events), more);
            && |more| <= TotalWork(r)
            && (|more| == TotalWork(r) <==> forall t :: t in f.threads ==> Idle(f.threads[t]))
            && (|more| == TotalWork(r) <==> forall e :: Onward(e) ==> !Enabled(f, e))
  {
    var r := Final(s, events);
    var f := Final(r, more);
    FreshInv(s);
    RunKeeps(s, events);
    RunKeeps(r, more);
    OnwardRun(r, more);
    NoWorkIff(f);
    if exists t :: t in f.threads && !Idle(f.threads[t]) {
      RunAppend(s, events, more);
      OnwardInOrder(r, more);
      OrderedAppend(s, events, more);
      SomeThreadProceeds(s, events + more);
    }
  }

  // --- A deadlock ----------------------------------------------------------------------------------------

  /** How many calls of the run ask for a key that is neither held nor above what is held. */
  ghost function Disorders(s: State, events: seq<Event>): nat
    requires Possible(s, events)
    decreases |events|
  {
    if events == [] then 0
    else (if StartsInOrder(s, events[0]) then 0 else 1) + Disorders(Step(s, events[0]), events[1..])
  }

  lemma {:induction false} OrderedIff(s: State, events: seq<Event>)
    requires Possible(s, events)
    ensures OrderedRun(s, events) <==> Disorders(s, events) == 0
    decreases |events|
  {
    if events != [] { OrderedIff(Step(s, events[0]), events[1..]); }
  }

  lemma {:induction false} DisordersAppend(s: State, a: seq<Event>, b: seq<Event>)
    requires Possible(s, a) && Possible(Final(s, a), b) && Possible(s, a + b)
    ensures Disorders(s, a + b) == Disorders(s, a) + Disorders(Final(s, a), b)
    decreases |a|
  {
    if a == [] {
      assert a + b == b;
    } else {
      assert (a + b)[1..] == a[1..] + b;
      DisordersAppend(Step(s, a[0]), a[1..], b);
    }
  }

  /** An idle thread takes a key nobody uses. */
  lemma {:induction false} TakeKey(s: State, t: Tid, k: Key) returns (events: seq<Event>)
    requires t in s.threads && Idle(s.threads[t]) && k !in s.locks && k !in s.refcounts
    ensures Possible(s, events)
    ensures Final(s, events) == State(s.locks[k := s.nextId], s.refcounts[k := 1], s.owners[s.nextId := Owned(t, 1)],
                                      s.nextId + 1, s.threads[t := Thread([k], [], None)])
    ensures events == [Enter(t, [k]), Get(t), Acquire(t)]
  {
    events := [Enter(t, [k]), Get(t), Acquire(t)];
    var s1 := Step(s, events[0]);
    var s2 := Step(s1, events[1]);
    var s3 := Step(s2, events[2]);
    assert [k][1..] == [] && [] + [k] == [k];
    assert Possible(s3, []) && Final(s3, []) == s3;
    assert events[1..][1..] == [events[2]] && [events[2]][1..] == [];
    assert Possible(s2, [events[2]]) && Final(s2, [events[2]]) == s3;
    assert Possible(s1, events[1..]) && Final(s1, events[1..]) == s3;
  }

  /** The first call of a thread that holds nothing is in order. */
  lemma {:induction false} FirstCallInOrder(s: State, e: Event, more: seq<Event>)
    requires Possible(s, [e] + more) && e.Enter? && s.threads[e.t].held == [] && forall x :: x in more ==> Onward(x)
    ensures Disorders(s, [e] + more) == 0
  {
    assert ([e] + more)[1..] == more;
    OnwardInOrder(Step(s, e), more);
  }

  lemma {:induction false} OnwardInOrder(s: State, events: seq<Event>)
    requires Possible(s, events) && forall e :: e in events ==> Onward(e)
    ensures OrderedRun(s, events) && Disorders(s, events) == 0
    decreases |events|
  {
    if events != [] {
      assert Onward(events[0]);
      OnwardInOrder(Step(s, events[0]), events[1..]);
    }
    OrderedIff(s, events);
  }

  /** A thread inside a call asks, nested, for a key that is in use. */
  lemma {:induction false} AskKey(s: State, t: Tid, k: Key) returns (events: seq<Event>)
    requires t in s.threads && s.threads[t].todo == [] && s.threads[t].wait.None?
    requires k in s.locks && k in s.refcounts
    ensures Possible(s, events)
    ensures Final(s, events) == s.(refcounts := s.refcounts[k := s.refcounts[k] + 1],
                                   threads := s.threads[t := Thread(s.threads[t].held, [k], Some(s.locks[k]))])
    ensures Disorders(s, events) == if InOrder(s.threads[t].held, k) then 0 else 1
  {
    events := [Enter(t, [k]), Get(t)];
    var s1 := Step(s, events[0]);
    var s2 := Step(s1, events[1]);
    assert Possible(s2, []) && Final(s2, []) == s2;
    assert events[1..] == [events[1]] && [events[1]][1..] == [];
    assert Possible(s1, [events[1]]) && Final(s1, [events[1]]) == s2;
    OnwardInOrder(s1, [events[1]]);
    assert StartsInOrder(s, events[0]) <==> InOrder(s.threads[t].held, k) by { assert k in [k]; }
  }

  ghost function TwoIdle(): State {
    State(map[], map[], map[], 0, map[0 := Thread([], [], None), 1 := Thread([], [], None)])
  }

  /** Thread 0 is inside a call holding `a`, thread 1 inside one holding `b`. */
  ghost function OneEach(a: Key, b: Key): State {
    State(map[a := 0, b := 1], map[a := 1, b := 1], map[0 := Owned(0, 1), 1 := Owned(1, 1)], 2,
          map[0 := Thread([a], [], None), 1 := Thread([b], [], None)])
  }

  lemma {:induction false} ReachOneEach(a: Key, b: Key) returns (events: seq<Event>)
    requires a != b
    ensures Possible(TwoIdle(), events) && Final(TwoIdle(), events) == OneEach(a, b)
    ensures Disorders(TwoIdle(), events) == 0
  {
    var e1 := TakeKey(TwoIdle(), 0, a);
    var e2 := TakeKey(Final(TwoIdle(), e1), 1, b);
    assert e1 == [e1[0]] + e1[1..] && e2 == [e2[0]] + e2[1..];
    FirstCallInOrder(TwoIdle(), e1[0], e1[1..]);
    FirstCallInOrder(Final(TwoIdle(), e1), e2[0], e2[1..]);
    RunAppend(TwoIdle(), e1, e2);
    DisordersAppend(TwoIdle(), e1, e2);
    events := e1 + e2;
  }

  lemma {:induction false} ReachCircle(a: Key, b: Key) returns (events: seq<Event>)
    requires a != b
    ensures Possible(OneEach(a, b), events) && WaitChain(Final(OneEach(a, b), events), [0, 1, 0])
    ensures Disorders(OneEach(a, b), events) == 1
  {
    var s := OneEach(a, b);
    var e1 := AskKey(s, 0, b);
    var e2 := AskKey(Final(s, e1), 1, a);
    RunAppend(s, e1, e2);
    DisordersAppend(s, e1, e2);
    OneInOrder(a, b);
    events := e1 + e2;
    assert WaitsFor(Final(s, events), 0, 1) && WaitsFor(Final(s, events), 1, 0);
  }

  lemma OneInOrder(a: Key, b: Key)
    requires a != b
    ensures InOrder([a], b) <==> !InOrder([b], a)
  {
    LtTotal(a, b);
    if Lt(a, b) { LtAsymmetric(a, b); } else { LtAsymmetric(b, a); }
    assert a in [a] && b in [b];
  }

  /**
   * Two threads that each take a key and then, nested, the other's key wait for each other. Only
   * one of the four calls is out of order, so the ordering cannot be given up for a single call.
   */
  lemma {:induction false} NestedCallsDeadlock(a: Key, b: Key)
    requires a != b
    ensures exists s, events, p ::
              && Fresh(s) && Possible(s, events) && Disorders(s, events) == 1
              && WaitChain(Final(s, events), p) && p[0] == p[|p| - 1]
  {
    var e1 := ReachOneEach(a, b);
    var e2 := ReachCircle(a, b);
    RunAppend(TwoIdle(), e1, e2);
    DisordersAppend(TwoIdle(), e1, e2);
    var p: seq<Tid> := [0, 1, 0];
    assert Fresh(TwoIdle()) && WaitChain(Final(TwoIdle(), e1 + e2), p) && p[0] == p[|p| - 1];
  }

  // --- The class ------------------------------------------------------------------------------------

  /** The manager's own fields and its three critical sections under `_meta_lock`. */
  class ResourceLockManager {
    var locks: map<Key, LockId>
    var refcounts: map<Key, int>
    var owners: map<LockId, Owner>
    var nextId: LockId
    ghost var threads: map<Tid, Thread>

    ghost function Snapshot(): State
      reads this
    {
      State(locks, refcounts, owners, nextId, threads)
    }

    constructor (ghost threads: map<Tid, Thread>)
      requires forall t :: t in threads ==> Idle(threads[t])
      ensures Inv(Snapshot()) && Fresh(Snapshot()) && this.threads == threads
    {
      locks, refcounts, owners, nextId := map[], map[], map[], 0;
      this.threads := threads;
      new;
      FreshInv(Snapshot());
    }

    /** `_get_lock`, called by thread `t` for the next key it wants. */
    method GetLock(ghost t: Tid, key: Key) returns (lock: LockId)
      requires Inv(Snapshot()) && Enabled(Snapshot(), Get(t)) && threads[t].todo[0] == key
      modifies this
      ensures Snapshot() == Step(old(Snapshot()), Get(t)) && Inv(Snapshot())
      ensures lock == locks[key]
    {
      StepKeeps(Snapshot(), Get(t));
      if key !in locks {
        locks := locks[key := nextId];
        owners := owners[nextId := Free];
        nextId := nextId + 1;
      }
      refcounts := refcounts[key := (if key in refcounts then refcounts[key] else 0) + 1];
      lock := locks[key];
      threads := threads[t := threads[t].(wait := Some(lock))];
    }

    /** One reference less; the last one deletes the lock object. */
    method DropReference(key: Key)
      requires key in refcounts
      modifies this
      ensures Snapshot() == DropRef(old(Snapshot()), key)
    {
      refcounts := refcounts[key := refcounts[key] - 1];
      if refcounts[key] == 0 {
        locks := locks - {key};
        refcounts := refcounts - {key};
        assert refcounts == old(refcounts) - {key};
      }
    }

    /** The branch of `lock` that runs when `acquire` timed out. */
    method GiveUp(ghost t: Tid, key: Key)
      requires Inv(Snapshot()) && Enabled(Snapshot(), Timeout(t)) && threads[t].todo != [] && threads[t].todo[0] == key
      modifies this
      ensures Snapshot() == Step(old(Snapshot()), Timeout(t)) && Inv(Snapshot())
    {
      ghost var next := Step(Snapshot(), Timeout(t));
      StepKeeps(Snapshot(), Timeout(t));
      assert WaitExact(Snapshot(), t);
      DropReference(key);
      threads := threads[t := Thread(threads[t].held, [], None)];
      assert Snapshot() == next;
    }

    /** The critical section of `_release_lock`. */
    method Unlock(key: Key)
      requires key in locks ==> key in refcounts && locks[key] in owners
      modifies this
      ensures Snapshot() == Released(old(Snapshot()), key)
    {
      if key !in locks { return; }
      var lock := locks[key];
      owners := owners[lock := Exited(owners[lock])];
      DropReference(key);
    }

    /** `_release_lock`, called in the `finally` block for the most recently acquired key. */
    method ReleaseLock(ghost t: Tid, key: Key)
      requires Inv(Snapshot()) && Enabled(Snapshot(), Leave(t)) && threads[t].held[|threads[t].held| - 1] == key
      modifies this
      ensures Snapshot() == Step(old(Snapshot()), Leave(t)) && Inv(Snapshot())
    {
      ghost var next := Step(Snapshot(), Leave(t));
      StepKeeps(Snapshot(), Leave(t));
      LeaveOwns(Snapshot(), t);
      Unlock(key);
      threads := threads[t := threads[t].(held := threads[t].held[..|threads[t].held| - 1])];
      assert Snapshot() == next;
    }
  }
}
