/**
 * `BranchCursor` (node/runtime/phase.py): its projection to an anchor output and back, and the
 * transaction one transition commits.
 */
module BranchCursors {
  import opened Wrappers
  import opened PtaLedger
  import opened CompactBlob

  const ANCHOR_ASSET := "mcp_state_anchor"
  const MAX_BLOB_BYTES: nat := 2048

  datatype BranchCursor = BranchCursor(streamId: string, pointer: Pointer, blob: string, node: string, fuel: int,
                                       owner: string, meta: map<string, string>, stack: seq<string>, tick: int)

  predicate IsTerminated(c: BranchCursor) {
    c.node == END_TOKEN
  }

  function PayloadOf(c: BranchCursor): Payload {
    Payload(c.blob, c.node, c.meta, c.tick, if c.stack == [] then None else Some(c.stack))
  }

  /** `to_anchor_output`; None is the OverflowError for a payload over the byte limit. */
  function ToAnchorOutput(c: BranchCursor, status: string, size: Payload -> nat): Option<Output> {
    if size(PayloadOf(c)) > MAX_BLOB_BYTES then None
    else Some(Output(c.fuel, c.owner, ANCHOR_ASSET, Some(Anchor(c.streamId, status, PayloadOf(c)))))
  }

  /** `from_anchor_output`. */
  function FromAnchorOutput(pointer: Pointer, o: Output, fallbackStream: string): BranchCursor
    requires o.anchor.Some?
  {
    var a := o.anchor.value;
    BranchCursor(if a.handleId != "" then a.handleId else fallbackStream, pointer, a.payload.blobRef, a.payload.node,
                 o.amount, o.owner, a.payload.meta,
                 match a.payload.stack case None => [] case Some(s) => s, a.payload.tick)
  }

  /** Reading an output back gives the cursor at its new pointer, exactly when the stream id survives. */
  lemma OutputRoundTrip(c: BranchCursor, status: string, size: Payload -> nat, p: Pointer, fallbackStream: string)
    requires ToAnchorOutput(c, status, size).Some?
    ensures FromAnchorOutput(p, ToAnchorOutput(c, status, size).value, fallbackStream) == c.(pointer := p)
       <==> c.streamId != "" || fallbackStream == ""
  {
  }

  /** The inputs of a transition: one signed input per spent cursor. */
  function SignedInputs(spent: seq<BranchCursor>, sign: Pointer -> string): (r: seq<Input>)
    ensures |r| == |spent|
    ensures forall i :: 0 <= i < |r| ==> r[i] == Input(spent[i].pointer, sign(spent[i].pointer), spent[i].owner)
  {
    seq(|spent|, i requires 0 <= i < |spent| => Input(spent[i].pointer, sign(spent[i].pointer), spent[i].owner))
  }

  predicate AllFit(next: seq<BranchCursor>, size: Payload -> nat) {
    forall c :: c in next ==> size(PayloadOf(c)) <= MAX_BLOB_BYTES
  }

  function AnchorOutputs(next: seq<BranchCursor>, status: string, size: Payload -> nat): (r: seq<Output>)
    requires AllFit(next, size)
    ensures |r| == |next|
    ensures forall i :: 0 <= i < |r| ==> r[i] == ToAnchorOutput(next[i], status, size).value
  {
    seq(|next|, i requires 0 <= i < |next| => ToAnchorOutput(next[i], status, size).value)
  }

  /** The transaction of `_commit_transition`. */
  function TransitionTx(spent: seq<BranchCursor>, next: seq<BranchCursor>, status: string, hash: string,
                        sign: Pointer -> string, size: Payload -> nat): Tx
    requires AllFit(next, size)
  {
    Tx(hash, SignedInputs(spent, sign), AnchorOutputs(next, status, size))
  }

  /** The committed cursors: each draft at the pointer of its output. */
  function Committed(next: seq<BranchCursor>, hash: string): (r: seq<BranchCursor>)
    ensures |r| == |next|
    ensures forall i :: 0 <= i < |r| ==> r[i] == next[i].(pointer := Pointer(hash, i))
  {
    seq(|next|, i requires 0 <= i < |next| => next[i].(pointer := Pointer(hash, i)))
  }
}
