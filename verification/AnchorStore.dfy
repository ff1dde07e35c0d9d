/**
 * `AnchorStore` (state/anchor/store.py, SEALER role) and the lineage walk of `AnchorOracle`
 * (state/anchor/oracle.py): a content-addressed object store with mutable heads, whose commits
 * form parent-hash chains.
 */
module AnchorStore {
  import opened Wrappers
  import opened PtaLedger

  type Hash = string

  const GENESIS: Hash := "genesis"

  datatype Kind = BlobKind | CommitKind

  datatype Object =
    | ToposBlob(action: string, fromState: string, toState: string, details: string, timestamp: int)
    | PhaseCommit(streamId: string, payload: Tx, blobHashes: seq<Hash>, parent: Hash, sealedAt: int)

  function KindOf(o: Object): Kind {
    if o.ToposBlob? then BlobKind else CommitKind
  }

  type Digest = Object -> Hash

  /** Collision-free hashing that never yields the reserved word or an empty string. */
  ghost predicate CollisionFree(d: Digest) {
    && (forall a, b :: d(a) == d(b) ==> a == b)
    && (forall a :: d(a) != GENESIS && d(a) != "")
  }

  /** The database: immutable objects under (kind, hash), mutable refs under a stream id. */
  datatype Store = Store(objects: map<(Kind, Hash), Object>, refs: map<string, Hash>)

  predicate HasCommit(s: Store, h: Hash) {
    (CommitKind, h) in s.objects && s.objects[(CommitKind, h)].PhaseCommit?
  }

  function CommitAt(s: Store, h: Hash): Object
    requires HasCommit(s, h)
    ensures CommitAt(s, h).PhaseCommit?
  {
    s.objects[(CommitKind, h)]
  }

  // --- Operations ------------------------------------------------------------------------------

  function Put(s: Store, o: Object, d: Digest): Store {
    if (KindOf(o), d(o)) in s.objects then s else s.(objects := s.objects[(KindOf(o), d(o)) := o])
  }

  function SetHead(s: Store, stream: string, h: Hash): Store {
    s.(refs := s.refs[stream := h])
  }

  /** `get_head_hash(stream) or "genesis"`. */
  function ParentFor(s: Store, stream: string): Hash {
    if stream in s.refs && s.refs[stream] != "" then s.refs[stream] else GENESIS
  }

  datatype Request = Request(stream: string, action: string, payload: Tx, blobTime: int, sealTime: int)

  function TransitionBlob(q: Request): Object {
    ToposBlob(q.action, "logic.stream", "sealed.kernel", "[TRANSITION] " + q.stream, q.blobTime)
  }

  function CommitFor(s: Store, q: Request, d: Digest): Object {
    PhaseCommit(q.stream, q.payload, [d(TransitionBlob(q))], ParentFor(s, q.stream), q.sealTime)
  }

  function Seal(s: Store, q: Request, d: Digest): Store {
    var c := CommitFor(s, q, d);
    SetHead(Put(Put(s, TransitionBlob(q), d), c, d), q.stream, d(c))
  }

  // --- Chains ------------------------------------------------------------------------------------

  /** `c` lists the commits from `h` back to "genesis". */
  ghost predicate IsChain(s: Store, h: Hash, c: seq<Hash>)
    decreases |c|
  {
    if c == [] then h == GENESIS
    else c[0] == h && h != GENESIS && HasCommit(s, h) && IsChain(s, CommitAt(s, h).parent, c[1..])
  }

  ghost predicate Rooted(s: Store, h: Hash) {
    exists c :: IsChain(s, h, c)
  }

  /** Every object sits under the hash of its content. */
  ghost predicate Addressed(s: Store, d: Digest) {
    forall k :: k in s.objects ==> k == (KindOf(s.objects[k]), d(s.objects[k]))
  }

  ghost predicate HeadsRooted(s: Store) {
    forall stream :: stream in s.refs ==> Rooted(s, s.refs[stream])
  }

  ghost predicate Inv(s: Store, d: Digest) {
    && Addressed(s, d)
    && (forall h :: HasCommit(s, h) ==> Rooted(s, h))
    && HeadsRooted(s)
  }

  /** `t` still holds every object of `s` unchanged. */
  ghost predicate Extends(t: Store, s: Store) {
    forall k :: k in s.objects ==> k in t.objects && t.objects[k] == s.objects[k]
  }

  lemma {:induction false} ChainStays(s: Store, t: Store, h: Hash, c: seq<Hash>)
    requires IsChain(s, h, c) && Extends(t, s)
    ensures IsChain(t, h, c)
    decreases |c|
  {
    if c != [] { ChainStays(s, t, CommitAt(s, h).parent, c[1..]); }
  }

  lemma RootedStays(s: Store, t: Store, h: Hash)
    requires Rooted(s, h) && Extends(t, s)
    ensures Rooted(t, h)
  {
    var c :| IsChain(s, h, c);
    ChainStays(s, t, h, c);
  }

  /** A hash has at most one chain. */
  lemma {:induction false} ChainUnique(s: Store, h: Hash, a: seq<Hash>, b: seq<Hash>)
    requires IsChain(s, h, a) && IsChain(s, h, b)
    ensures a == b
    decreases |a|
  {
    if a != [] && b != [] {
      ChainUnique(s, CommitAt(s, h).parent, a[1..], b[1..]);
      assert a == [a[0]] + a[1..] && b == [b[0]] + b[1..];
    }
  }

  lemma {:induction false} ChainSuffix(s: Store, h: Hash, c: seq<Hash>, i: nat)
    requires IsChain(s, h, c) && i < |c|
    ensures IsChain(s, c[i], c[i..])
    decreases i
  {
    if i > 0 {
      ChainSuffix(s, CommitAt(s, h).parent, c[1..], i - 1);
      assert c[1..][i - 1] == c[i] && c[1..][i - 1..] == c[i..];
    } else {
      assert c[0..] == c;
    }
  }

  /** A chain that reaches genesis has no cycle: it never meets the same commit twice. */
  lemma ChainHasNoCycle(s: Store, h: Hash, c: seq<Hash>)
    requires IsChain(s, h, c)
    ensures forall i, j :: 0 <= i < j < |c| ==> c[i] != c[j]
  {
    forall i, j | 0 <= i < j < |c| ensures c[i] != c[j] {
      ChainSuffix(s, h, c, i);
      ChainSuffix(s, h, c, j);
      assert |c[i..]| != |c[j..]|;
      if c[i] == c[j] { ChainUnique(s, c[i], c[i..], c[j..]); }
    }
  }

  /** In a reachable store a hash is rooted exactly when it is "genesis" or a stored commit. */
  lemma RootedIff(s: Store, d: Digest, h: Hash)
    requires Inv(s, d)
    ensures Rooted(s, h) <==> h == GENESIS || HasCommit(s, h)
  {
    if h == GENESIS { assert IsChain(s, h, []); }
    if c :| IsChain(s, h, c) {}
  }

  lemma ParentRooted(s: Store, h: Hash)
    requires HasCommit(s, h) && h != GENESIS && Rooted(s, CommitAt(s, h).parent)
    ensures Rooted(s, h)
  {
    var c :| IsChain(s, CommitAt(s, h).parent, c);
    assert ([h] + c)[1..] == c;
    assert IsChain(s, h, [h] + c);
  }

  // --- What each operation keeps -------------------------------------------------------------------

  /** Storing an object keeps every chain reaching genesis exactly when a stored commit's parent does. */
  lemma PutIff(s: Store, o: Object, d: Digest)
    requires Inv(s, d) && CollisionFree(d)
    ensures Inv(Put(s, o, d), d) <==> (o.PhaseCommit? ==> Rooted(s, o.parent))
    ensures Extends(Put(s, o, d), s)
  {
    PutAddressed(s, o, d);
    if o.PhaseCommit? && Rooted(Put(s, o, d), d(o)) {
      var t := Put(s, o, d);
      var c :| IsChain(t, d(o), c);
      ChainHasNoCycle(t, d(o), c);
      ChainBack(s, o, d, o.parent, c[1..]);
    }
    if o.PhaseCommit? ==> Rooted(s, o.parent) { PutKeeps(s, o, d); }
  }

  /** A chain that does not meet the object just stored was there before. */
  lemma {:induction false} ChainBack(s: Store, o: Object, d: Digest, h: Hash, c: seq<Hash>)
    requires IsChain(Put(s, o, d), h, c) && d(o) !in c
    ensures IsChain(s, h, c)
    decreases |c|
  {
    if c != [] { ChainBack(s, o, d, CommitAt(Put(s, o, d), h).parent, c[1..]); }
  }

  lemma PutKeeps(s: Store, o: Object, d: Digest)
    requires Inv(s, d) && CollisionFree(d)
    requires o.PhaseCommit? ==> Rooted(s, o.parent)
    ensures Inv(Put(s, o, d), d) && Extends(Put(s, o, d), s)
    ensures o.PhaseCommit? ==> HasCommit(Put(s, o, d), d(o)) && CommitAt(Put(s, o, d), d(o)) == o
  {
    PutAddressed(s, o, d);
    forall h | HasCommit(Put(s, o, d), h) ensures Rooted(Put(s, o, d), h) {
      PutRooted(s, o, d, h);
    }
    forall stream | stream in s.refs ensures Rooted(Put(s, o, d), s.refs[stream]) {
      RootedStays(s, Put(s, o, d), s.refs[stream]);
    }
  }

  lemma PutAddressed(s: Store, o: Object, d: Digest)
    requires Addressed(s, d) && CollisionFree(d)
    ensures Addressed(Put(s, o, d), d) && Extends(Put(s, o, d), s) && Put(s, o, d).refs == s.refs
    ensures o.PhaseCommit? ==> HasCommit(Put(s, o, d), d(o)) && CommitAt(Put(s, o, d), d(o)) == o
    ensures forall h :: HasCommit(Put(s, o, d), h) && !HasCommit(s, h) ==>
            o.PhaseCommit? && CommitAt(Put(s, o, d), h) == o
  {
  }

  lemma PutRooted(s: Store, o: Object, d: Digest, h: Hash)
    requires Inv(s, d) && CollisionFree(d) && HasCommit(Put(s, o, d), h)
    requires o.PhaseCommit? ==> Rooted(s, o.parent)
    ensures Rooted(Put(s, o, d), h)
  {
    var t := Put(s, o, d);
    PutAddressed(s, o, d);
    if HasCommit(s, h) {
      RootedStays(s, t, h);
    } else {
      RootedStays(s, t, o.parent);
      ParentRooted(t, h);
    }
  }

  /** Setting a head keeps every chain reaching genesis exactly when the new head does. */
  lemma SetHeadIff(s: Store, stream: string, h: Hash, d: Digest)
    requires Inv(s, d)
    ensures Inv(SetHead(s, stream, h), d) <==> h == GENESIS || HasCommit(s, h)
    ensures HeadsRooted(SetHead(s, stream, h)) <==> h == GENESIS || HasCommit(s, h)
  {
    var t := SetHead(s, stream, h);
    RootedIff(s, d, h);
    forall x ensures Rooted(t, x) <==> Rooted(s, x) {
      if Rooted(t, x) { RootedStays(t, s, x); }
      if Rooted(s, x) { RootedStays(s, t, x); }
    }
    assert stream in t.refs && t.refs[stream] == h;
  }

  lemma SealKeeps(s: Store, q: Request, d: Digest)
    requires Inv(s, d) && CollisionFree(d)
    ensures Inv(Seal(s, q, d), d) && Extends(Seal(s, q, d), s)
    ensures HasCommit(Seal(s, q, d), d(CommitFor(s, q, d)))
    ensures CommitAt(Seal(s, q, d), d(CommitFor(s, q, d))) == CommitFor(s, q, d)
  {
    var c := CommitFor(s, q, d);
    var s1 := Put(s, TransitionBlob(q), d);
    PutKeeps(s, TransitionBlob(q), d);
    RootedIff(s, d, c.parent);
    RootedStays(s, s1, c.parent);
    PutKeeps(s1, c, d);
    SetHeadIff(Put(s1, c, d), q.stream, d(c), d);
  }

  /**
   * A seal extends the chain of its stream by exactly one commit, which carries the payload,
   * and leaves the head and the chain of every other stream as they were.
   */
  lemma SealExtendsOneChain(s: Store, q: Request, d: Digest, c: seq<Hash>)
    requires Inv(s, d) && CollisionFree(d) && IsChain(s, ParentFor(s, q.stream), c)
    ensures var t := Seal(s, q, d);
            && q.stream in t.refs
            && IsChain(t, t.refs[q.stream], [t.refs[q.stream]] + c)
            && CommitAt(t, t.refs[q.stream]).payload == q.payload
    ensures forall other, b :: other != q.stream && other in s.refs && IsChain(s, s.refs[other], b) ==>
      other in Seal(s, q, d).refs && Seal(s, q, d).refs[other] == s.refs[other] &&
        IsChain(Seal(s, q, d), s.refs[other], b)
    ensures forall other :: other != q.stream && other !in s.refs ==> other !in Seal(s, q, d).refs
  {
    var t := Seal(s, q, d);
    SealKeeps(s, q, d);
    ChainStays(s, t, ParentFor(s, q.stream), c);
    assert ([t.refs[q.stream]] + c)[1..] == c;
    forall other, b | other != q.stream && other in s.refs && IsChain(s, s.refs[other], b)
      ensures IsChain(t, s.refs[other], b)
    {
      ChainStays(s, t, s.refs[other], b);
    }
  }

  // --- Runs --------------------------------------------------------------------------------------------

  datatype Event =
    | SealEvent(q: Request)
    | SaveCommit(commit: Object)              // the write of `seal_system_epoch`
    | SaveBlob(action: string, fromState: string, toState: string, details: string, timestamp: int)
    | UpdateHead(stream: string, h: Hash)

  function Step(s: Store, e: Event, d: Digest): Store {
    match e
    case SealEvent(q) => Seal(s, q, d)
    case SaveCommit(c) => Put(s, c, d)
    case SaveBlob(a, f, t, x, ts) => Put(s, ToposBlob(a, f, t, x, ts), d)
    case UpdateHead(stream, h) => SetHead(s, stream, h)
  }

  /** A head is set to, and a commit is based on, a stored commit or "genesis". */
  predicate Grounded(s: Store, e: Event) {
    match e
    case UpdateHead(_, h) => h == GENESIS || HasCommit(s, h)
    case SaveCommit(c) => c.PhaseCommit? ==> c.parent == GENESIS || HasCommit(s, c.parent)
    case _ => true
  }

  ghost predicate Careful(s: Store, events: seq<Event>, d: Digest)
    decreases |events|
  {
    events != [] ==> Grounded(s, events[0]) && Careful(Step(s, events[0], d), events[1..], d)
  }

  function Run(s: Store, events: seq<Event>, d: Digest): Store
    decreases |events|
  {
    if events == [] then s else Run(Step(s, events[0], d), events[1..], d)
  }

  ghost predicate InvThroughout(s: Store, events: seq<Event>, d: Digest)
    decreases |events|
  {
    Inv(s, d) && (events != [] ==> InvThroughout(Step(s, events[0], d), events[1..], d))
  }

  lemma StepInvIff(s: Store, e: Event, d: Digest)
    requires Inv(s, d) && CollisionFree(d)
    ensures Inv(Step(s, e, d), d) <==> Grounded(s, e)
    ensures Extends(Step(s, e, d), s)
  {
    match e
    case SealEvent(q) => SealKeeps(s, q, d);
    case SaveCommit(c) =>
      PutIff(s, c, d);
      if c.PhaseCommit? { RootedIff(s, d, c.parent); }
    case SaveBlob(a, f, u, x, ts) => PutKeeps(s, ToposBlob(a, f, u, x, ts), d);
    case UpdateHead(stream, h) => SetHeadIff(s, stream, h, d);
  }

  /**
   * Over every run: every stored commit and every head reach "genesis" in every state if and only
   * if heads are set to, and commits based on, stored commits or "genesis". Then no stored object
   * ever changes, and every head's chain has no gap and no cycle.
   */
  lemma {:induction false} ChainsAlwaysReachGenesis(s: Store, events: seq<Event>, d: Digest)
    requires Inv(s, d) && CollisionFree(d)
    ensures InvThroughout(s, events, d) <==> Careful(s, events, d)
    ensures Careful(s, events, d) ==> Inv(Run(s, events, d), d) && Extends(Run(s, events, d), s)
    ensures Careful(s, events, d) ==> forall stream :: stream in Run(s, events, d).refs ==>
      exists c :: IsChain(Run(s, events, d), Run(s, events, d).refs[stream], c)
                  && forall i, j :: 0 <= i < j < |c| ==> c[i] != c[j]
    decreases |events|
  {
    var r := Run(s, events, d);
    if events != [] {
      StepInvIff(s, events[0], d);
      if Grounded(s, events[0]) { ChainsAlwaysReachGenesis(Step(s, events[0], d), events[1..], d); }
    }
    if Careful(s, events, d) {
      forall stream | stream in r.refs
        ensures exists c :: IsChain(r, r.refs[stream], c) && forall i, j :: 0 <= i < j < |c| ==> c[i] != c[j]
      {
        var c :| IsChain(r, r.refs[stream], c);
        ChainHasNoCycle(r, r.refs[stream], c);
      }
    }
  }

  /** A head set to a hash under which nothing is stored reaches nothing. */
  lemma DanglingHead(d: Digest)
    ensures Inv(Store(map[], map[]), d)
    ensures !HeadsRooted(SetHead(Store(map[], map[]), "s", "dangling"))
  {
    EmptyStoreInv(d);
    SetHeadIff(Store(map[], map[]), "s", "dangling", d);
  }

  lemma EmptyStoreInv(d: Digest)
    ensures Inv(Store(map[], map[]), d)
  {
  }

  // --- The lineage walk ---------------------------------------------------------------------------------

  /** The answer of the parity engine for one commit. */
  datatype ParityReply = Crashed | Valid | Recovered | Fractured

  predicate Passes(p: ParityReply) {
    p.Valid? || p.Recovered?
  }

  datatype Lineage =
    | Intact(reachedGenesis: bool, trace: seq<Hash>)
    | Ruptured(at: Hash, trace: seq<Hash>)

  function Clamp(depth: int, length: nat): (n: nat)
    ensures n <= length
  {
    if depth <= 0 then 0 else if depth <= length then depth else length
  }

  /** All of the first `n` commits of the chain pass the parity check. */
  ghost predicate AllPass(s: Store, c: seq<Hash>, n: nat, parity: Object -> ParityReply) {
    n <= |c| && forall i :: 0 <= i < n ==> HasCommit(s, c[i]) && Passes(parity(CommitAt(s, c[i])))
  }

  /** What the walk promises along the chain `c` of its starting hash. */
  ghost predicate WalksChain(s: Store, c: seq<Hash>, depth: int, parity: Object -> ParityReply, r: Lineage) {
    var m := Clamp(depth, |c|);
    if r.Intact? then
      r.trace == c[..m] && AllPass(s, c, m, parity) && (r.reachedGenesis <==> m == |c|)
    else
      && |r.trace| < m && r.trace == c[..|r.trace|] && AllPass(s, c, |r.trace|, parity)
      && r.at == c[|r.trace|] && HasCommit(s, r.at) && !Passes(parity(CommitAt(s, r.at)))
  }

  /** The walk has followed `c` up to `current`. */
  ghost predicate OnChain(s: Store, c: seq<Hash>, current: Hash, trace: seq<Hash>, parity: Object -> ParityReply) {
    |trace| <= |c| && trace == c[..|trace|] && IsChain(s, current, c[|trace|..]) && AllPass(s, c, |trace|, parity)
  }

  lemma OnChainStep(s: Store, c: seq<Hash>, current: Hash, trace: seq<Hash>, parity: Object -> ParityReply)
    requires OnChain(s, c, current, trace, parity) && current != GENESIS
    ensures |trace| < |c| && c[|trace|] == current && HasCommit(s, current)
    ensures Passes(parity(CommitAt(s, current))) ==>
      OnChain(s, c, CommitAt(s, current).parent, trace + [current], parity)
  {
    assert c[|trace|..][1..] == c[|trace| + 1..];
    assert c[..|trace| + 1] == c[..|trace|] + [c[|trace|]];
  }

  /**
   * `verify_kernel_lineage`: on a rooted chain the walk returns its first min(depth, length)
   * commits if they all pass, and stops at the first one that does not (the empty string is no
   * hash, so nothing is stored under it). It reports genesis only for rooted hashes.
   */
  method VerifyKernelLineage(s: Store, start: Hash, depth: int, parity: Object -> ParityReply) returns (r: Lineage)
    ensures !HasCommit(s, "") ==> forall c :: IsChain(s, start, c) ==> WalksChain(s, c, depth, parity, r)
    ensures r.Intact? && r.reachedGenesis ==> Rooted(s, start)
  {
    var current, trace := start, [];
    while current != "" && current != GENESIS && |trace| < depth
      invariant |trace| == 0 || |trace| <= depth
      invariant forall c :: IsChain(s, start, c) ==> OnChain(s, c, current, trace, parity)
      invariant Rooted(s, current) ==> Rooted(s, start)
      decreases depth - |trace|
    {
      forall c | IsChain(s, start, c)
        ensures |trace| < |c| && c[|trace|] == current && HasCommit(s, current)
        ensures Passes(parity(CommitAt(s, current))) ==>
          OnChain(s, c, CommitAt(s, current).parent, trace + [current], parity)
      {
        OnChainStep(s, c, current, trace, parity);
      }
      if !HasCommit(s, current) || !Passes(parity(CommitAt(s, current))) {
        return Ruptured(current, trace);
      }
      if Rooted(s, CommitAt(s, current).parent) { ParentRooted(s, current); }
      trace := trace + [current];
      current := CommitAt(s, current).parent;
    }
    if current == GENESIS { assert IsChain(s, current, []); }
    forall c | IsChain(s, start, c) && !HasCommit(s, "")
      ensures WalksChain(s, c, depth, parity, Intact(current == GENESIS, trace))
    {
      assert IsChain(s, current, c[|trace|..]);
      assert |trace| < |c| ==> c[|trace|..][0] == current;
    }
    return Intact(current == GENESIS, trace);
  }

  // --- The class ------------------------------------------------------------------------------------------

  class SealerStore {
    const digest: Digest
    var objects: map<(Kind, Hash), Object>
    var refs: map<string, Hash>

    ghost function Db(): Store
      reads this
    {
      Store(objects, refs)
    }

    ghost predicate Sound()
      reads this
    {
      CollisionFree(digest) && Inv(Db(), digest)
    }

    constructor (digest: Digest)
      requires CollisionFree(digest)
      ensures Sound() && Db() == Store(map[], map[]) && this.digest == digest
    {
      this.digest, objects, refs := digest, map[], map[];
      new;
      EmptyStoreInv(digest);
    }

    /** `_put_object`: written once, never overwritten; the store itself accepts any commit. */
    method PutObject(o: Object) returns (h: Hash)
      requires CollisionFree(digest) && Addressed(Db(), digest)
      modifies this`objects
      ensures h == digest(o) && Db() == Put(old(Db()), o, digest) && Addressed(Db(), digest)
      ensures (KindOf(o), h) in objects && objects[(KindOf(o), h)] == o
      ensures old(Sound()) ==> (Sound() <==> (o.PhaseCommit? ==> Rooted(old(Db()), o.parent)))
    {
      PutAddressed(Db(), o, digest);
      if Inv(Db(), digest) { PutIff(Db(), o, digest); }
      h := digest(o);
      if (KindOf(o), h) !in objects {
        objects := objects[(KindOf(o), h) := o];
      }
    }

    /** `update_head`; the store itself accepts any hash. */
    method SetHeadTo(stream: string, h: Hash)
      requires CollisionFree(digest) && Addressed(Db(), digest)
      modifies this
      ensures Db() == SetHead(old(Db()), stream, h)
      ensures old(Sound()) ==> (Sound() <==> h == GENESIS || HasCommit(old(Db()), h))
    {
      ghost var s := Db();
      refs := refs[stream := h];
      if Inv(s, digest) { SetHeadIff(s, stream, h, digest); }
    }

    /** `get_head_hash`. */
    function GetHeadHash(stream: string): Option<Hash>
      reads this
    {
      if stream in refs then Some(refs[stream]) else None
    }

    /** In a sound store a head that is returned is "genesis" or names a stored commit whose chain reaches it. */
    lemma HeadIsStored(stream: string)
      requires Sound() && GetHeadHash(stream).Some?
      ensures GetHeadHash(stream).value == GENESIS || HasCommit(Db(), GetHeadHash(stream).value)
      ensures exists c :: IsChain(Db(), GetHeadHash(stream).value, c)
    {
      RootedIff(Db(), digest, refs[stream]);
    }

    /** `propose_and_seal` in the SEALER role. */
    method ProposeAndSeal(q: Request) returns (signature: Hash)
      requires Sound()
      modifies this
      ensures Sound() && Db() == Seal(old(Db()), q, digest) && signature == refs[q.stream]
    {
      ghost var s := Db();
      var head := GetHeadHash(q.stream);
      var parent := if head.Some? && head.value != "" then head.value else GENESIS;
      assert parent == ParentFor(s, q.stream);
      RootedIff(s, digest, parent);
      var blobHash := PutObject(TransitionBlob(q));
      PutKeeps(s, TransitionBlob(q), digest);
      RootedStays(s, Db(), parent);
      var commit := PhaseCommit(q.stream, q.payload, [blobHash], parent, q.sealTime);
      signature := PutObject(commit);
      SetHeadTo(q.stream, signature);
      SealKeeps(s, q, digest);
    }
  }
}
