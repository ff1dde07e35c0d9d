/**
 * `_commit_transition` and `restore_cursor` (node/runtime/phase.py) over the anchor store: a
 * stream id is enough to get its live cursor back.
 */
module CursorRestore {
  import opened Wrappers
  import opened PtaLedger
  import opened AnchorStore
  import opened BranchCursors
  import opened BranchRuntime
  import opened StreamIds

  /** The head updates after the seal: every next cursor's stream points at the commit. */
  function PointHeads(s: Store, next: seq<BranchCursor>, h: Hash): Store {
    if next == [] then s else SetHead(PointHeads(s, next[..|next| - 1], h), next[|next| - 1].streamId, h)
  }

  /** A sealed `_commit_transition`. */
  function Transition(s: Store, q: Request, next: seq<BranchCursor>, d: Digest): Store {
    PointHeads(Seal(s, q, d), next, d(CommitFor(s, q, d)))
  }

  /** The first output that names the stream, or the only one. */
  function FindOutput(outputs: seq<Output>, stream: string, from: nat): (i: Option<nat>)
    requires from <= |outputs|
    ensures i.Some? ==> from <= i.value < |outputs| && Answers(outputs, stream, i.value)
    ensures i.Some? ==> forall j :: from <= j < i.value ==> !Answers(outputs, stream, j)
    ensures i.None? ==> forall j :: from <= j < |outputs| ==> !Answers(outputs, stream, j)
    decreases |outputs| - from
  {
    if from == |outputs| then None
    else if Answers(outputs, stream, from) then Some(from)
    else FindOutput(outputs, stream, from + 1)
  }

  predicate Answers(outputs: seq<Output>, stream: string, i: nat)
    requires i < |outputs|
  {
    (outputs[i].anchor.Some? && outputs[i].anchor.value.handleId == stream) || |outputs| == 1
  }

  /**
   * `restore_cursor` for a name that is no key of the unfold pool: through the head of the
   * stream and the commit it points at. None stands for the KeyError and the ValueError.
   */
  function RestoreStream(s: Store, stream: string): Option<BranchCursor> {
    if stream !in s.refs || s.refs[stream] == "" || !HasCommit(s, s.refs[stream]) then None
    else
      var tx := CommitAt(s, s.refs[stream]).payload;
      match FindOutput(tx.outputs, stream, 0)
      case None => None
      case Some(i) =>
        if tx.outputs[i].anchor.None? then None
        else Some(FromAnchorOutput(Pointer(tx.hash, i), tx.outputs[i], stream))
  }

  lemma {:induction false} PointHeadsSets(s: Store, next: seq<BranchCursor>, h: Hash)
    ensures PointHeads(s, next, h).objects == s.objects
    ensures forall c :: c in next ==>
              c.streamId in PointHeads(s, next, h).refs && PointHeads(s, next, h).refs[c.streamId] == h
    ensures forall stream :: (forall c :: c in next ==> c.streamId != stream) ==>
      (stream in PointHeads(s, next, h).refs <==> stream in s.refs)
      && (stream in s.refs ==> PointHeads(s, next, h).refs[stream] == s.refs[stream])
    decreases |next|
  {
    if next != [] {
      var n := |next| - 1;
      assert next == next[..n] + [next[n]];
      PointHeadsSets(s, next[..n], h);
    }
  }

  /** What the commit of a transition holds. */
  lemma {:induction false} TransitionStores(s: Store, q: Request, next: seq<BranchCursor>, d: Digest, c: BranchCursor)
    requires Inv(s, d) && CollisionFree(d) && c in next
    ensures var t := Transition(s, q, next, d);
            && c.streamId in t.refs && t.refs[c.streamId] != "" && HasCommit(t, t.refs[c.streamId])
            && CommitAt(t, t.refs[c.streamId]).payload == q.payload
  {
    SealKeeps(s, q, d);
    PointHeadsSets(Seal(s, q, d), next, d(CommitFor(s, q, d)));
  }

  /**
   * Right after a sealed transition, restoring the stream of its `i`-th cursor gives back that
   * cursor at its new pointer, with the same blob, node, fuel, meta, stack and tick, exactly
   * when no earlier cursor of the transition uses the same stream id.
   */
  lemma {:induction false} RestoreAfterTransition(s: Store, q: Request, spent: seq<BranchCursor>,
                                                  next: seq<BranchCursor>, i: nat, status: string,
                                                  sign: Pointer -> string, size: Payload -> nat, d: Digest)
    requires Inv(s, d) && CollisionFree(d) && i < |next| && AllFit(next, size)
    requires q.payload == TransitionTx(spent, next, status, q.payload.hash, sign, size)
    ensures RestoreStream(Transition(s, q, next, d), next[i].streamId) == Some(Committed(next, q.payload.hash)[i])
       <==> forall j :: 0 <= j < i ==> next[j].streamId != next[i].streamId
  {
    var stream, outputs := next[i].streamId, q.payload.outputs;
    TransitionStores(s, q, next, d, next[i]);
    assert Answers(outputs, stream, i);
    var k := FindOutput(outputs, stream, 0).value;
    assert k <= i;
    OutputRoundTrip(next[k], status, size, Pointer(q.payload.hash, k), stream);
    if k == i {
      forall j | 0 <= j < i ensures next[j].streamId != stream { assert !Answers(outputs, stream, j); }
    } else {
      assert |outputs| > 1 && next[k].streamId == stream;
    }
  }

  /**
   * A direct call of `_commit_transition` with two cursors on one stream, which no operation makes:
   * the stream restores to the first for both.
   */
  lemma SharedStreamRestoresFirst(d: Digest)
    requires CollisionFree(d)
    ensures var a := BranchCursor("s", Pointer("", 0), "branch:x", "first", 5, "o", map[], [], 1);
            var next := [a, a.(node := "second")];
            var tx := TransitionTx([], next, "ACTIVE", "h", (p: Pointer) => "sig", (p: Payload) => 0);
            var t := Transition(Store(map[], map[]), Request("s", "act", tx, 0, 0), next, d);
            && RestoreStream(t, next[1].streamId) == Some(Committed(next, "h")[0])
            && Committed(next, "h")[0] != Committed(next, "h")[1]
  {
    var a := BranchCursor("s", Pointer("", 0), "branch:x", "first", 5, "o", map[], [], 1);
    var next := [a, a.(node := "second")];
    var sign, size := (p: Pointer) => "sig", (p: Payload) => 0;
    var q := Request("s", "act", TransitionTx([], next, "ACTIVE", "h", sign, size), 0, 0);
    EmptyStoreInv(d);
    RestoreAfterTransition(Store(map[], map[]), q, [], next, 0, "ACTIVE", sign, size, d);
    assert a.node != next[1].node;
  }

  // --- Until the stream is named again -----------------------------------------------------------------

  predicate Names(e: AnchorStore.Event, stream: string) {
    match e
    case SealEvent(q) => q.stream == stream
    case SaveCommit(_) => false
    case SaveBlob(_, _, _, _, _) => false
    case UpdateHead(st, _) => st == stream
  }

  lemma {:induction false} StepKeepsRestore(s: Store, e: AnchorStore.Event, d: Digest, stream: string)
    requires !Names(e, stream) && RestoreStream(s, stream).Some?
    ensures RestoreStream(AnchorStore.Step(s, e, d), stream) == RestoreStream(s, stream)
  {
  }

  /** Nothing but a commit or head update naming the stream changes what it restores to. */
  lemma {:induction false} RunKeepsRestore(s: Store, events: seq<AnchorStore.Event>, d: Digest, stream: string)
    requires (forall e :: e in events ==> !Names(e, stream)) && RestoreStream(s, stream).Some?
    ensures RestoreStream(AnchorStore.Run(s, events, d), stream) == RestoreStream(s, stream)
    decreases |events|
  {
    if events != [] {
      StepKeepsRestore(s, events[0], d, stream);
      RunKeepsRestore(AnchorStore.Step(s, events[0], d), events[1..], d, stream);
    }
  }

  lemma {:induction false} CommittedSurvives(s: Store, q: Request, spent: seq<BranchCursor>, next: seq<BranchCursor>,
                                             i: nat, status: string, sign: Pointer -> string, size: Payload -> nat,
                                             d: Digest, events: seq<AnchorStore.Event>)
    requires Inv(s, d) && CollisionFree(d) && i < |next| && AllFit(next, size)
    requires q.payload == TransitionTx(spent, next, status, q.payload.hash, sign, size)
    requires forall j :: 0 <= j < i ==> next[j].streamId != next[i].streamId
    requires forall e :: e in events ==> !Names(e, next[i].streamId)
    ensures RestoreStream(AnchorStore.Run(Transition(s, q, next, d), events, d), next[i].streamId)
         == Some(Committed(next, q.payload.hash)[i])
  {
    RestoreAfterTransition(s, q, spent, next, i, status, sign, size, d);
    RunKeepsRestore(Transition(s, q, next, d), events, d, next[i].streamId);
  }

  // --- The operations of the runtime -----------------------------------------------------------------------

  /** No operation creates two cursors on one stream: children are numbered, anything else creates one cursor. */
  lemma {:induction false} CreatedStreamsDiffer(m: Move, i: nat, j: nat)
    requires Creates(m).Some? && i < j < |Creates(m).value|
    ensures Creates(m).value[i].streamId != Creates(m).value[j].streamId
  {
    ChildrenApart(m.parent.streamId, i, j);
  }

  /**
   * For spawn, step, fork, merge and fallback alike: from the commit that produced a cursor until
   * the next event naming its stream, the stream restores to that very cursor.
   */
  lemma {:induction false} CursorSurvives(s: Store, q: Request, m: Move, e: Env, i: nat, d: Digest,
                                          events: seq<AnchorStore.Event>)
    requires Inv(s, d) && CollisionFree(d)
    requires Creates(m).Some? && AllFit(Creates(m).value, e.size) && i < |Creates(m).value|
    requires q.payload == TxOf(m, e)
    requires forall x :: x in events ==> !Names(x, Creates(m).value[i].streamId)
    ensures RestoreStream(AnchorStore.Run(Transition(s, q, Creates(m).value, d), events, d),
                          Creates(m).value[i].streamId)
         == Some(Committed(Creates(m).value, e.hash)[i])
  {
    forall j | 0 <= j < i ensures Creates(m).value[j].streamId != Creates(m).value[i].streamId {
      CreatedStreamsDiffer(m, j, i);
    }
    CommittedSurvives(s, q, Spends(m), Creates(m).value, i, e.status, e.sign, e.size, d, events);
  }
}
