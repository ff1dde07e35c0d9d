/**
 * `BranchController._resolve_target` (node/runtime/phase.py): plain moves, sub-branch entries that
 * push a "blob#node" frame, and RETURN / END that pop one; and the root recovery of `resume`
 * (node/runtime/fsm/traverser.py).
 */
module CallStack {
  import opened Wrappers
  import opened CompactBlob
  import opened Sequences

  // --- Frames --------------------------------------------------------------------------------------

  /** Position of the first '#', or the length if there is none. */
  function HashAt(s: string): (n: nat)
    ensures n <= |s| && '#' !in s[..n]
    ensures n < |s| ==> s[n] == '#'
  {
    if s == [] || s[0] == '#' then 0
    else
      var n := HashAt(s[1..]);
      assert s[..n + 1] == [s[0]] + s[1..][..n];
      n + 1
  }

  /** `s.split("#", 1)[0]`. */
  function Before(s: string): string {
    s[..HashAt(s)]
  }

  /** `s.split("#", 1)[1]`. */
  function After(s: string): string
    requires '#' in s
  {
    HashInside(s);
    s[HashAt(s) + 1..]
  }

  lemma HashInside(s: string)
    requires '#' in s
    ensures HashAt(s) < |s|
  {
    assert s[..|s|] == s;
  }

  lemma {:induction false} FirstHash(s: string, i: nat)
    requires i < |s| && s[i] == '#' && '#' !in s[..i]
    ensures HashAt(s) == i
    decreases i
  {
    if i > 0 {
      assert s[0] in s[..i] && s[1..][..i - 1] == s[..i][1..];
      FirstHash(s[1..], i - 1);
    }
  }

  lemma {:induction false} NoHash(s: string)
    requires '#' !in s
    ensures Before(s) == s
    decreases |s|
  {
    if s != [] {
      assert s[0] in s && forall x :: x in s[1..] ==> x in s;
      NoHash(s[1..]);
      assert s[1..][..HashAt(s[1..])] == s[1..];
    }
  }

  function Frame(blob: string, node: string): string {
    blob + "#" + node
  }

  /** The frame encoding is read back exactly, whatever the node name, if and only if the blob has no '#'. */
  lemma FrameRoundTrip(blob: string, node: string)
    ensures '#' in Frame(blob, node)
    ensures Before(Frame(blob, node)) == blob && After(Frame(blob, node)) == node <==> '#' !in blob
  {
    var f := Frame(blob, node);
    assert f[|blob|] == '#' && f[..|blob|] == blob && f[|blob| + 1..] == node;
    if '#' !in blob {
      FirstHash(f, |blob|);
    } else {
      BeforeHasNoHash(f);
    }
  }

  /** A blob named "a#b" is read back as "a". */
  lemma HashInBlobName()
    ensures Before(Frame("a#b", "n")) == "a" && After(Frame("a#b", "n")) == "b#n"
  {
    assert Frame("a#b", "n") == "a#b#n";
    FirstHash("a#b#n", 1);
  }

  lemma BeforeHasNoHash(s: string)
    ensures '#' !in Before(s)
  {
  }

  // --- The resolver ----------------------------------------------------------------------------------

  datatype Kind = CORE | SYMLINK | ANCHOR

  /** The part of a `BranchCursor` that targets act on. */
  datatype Cursor = Cursor(blob: string, node: string, stack: seq<string>)

  datatype Resolved = Resolved(blob: string, node: string, kind: Kind, stack: seq<string>)

  predicate IsReturn(raw: string) {
    raw == RETURN_TOKEN || StartsWith(raw, RETURN_TOKEN + "#")
  }

  predicate IsBranch(raw: string) {
    StartsWith(raw, BRANCH_PREFIX) || StartsWith(raw, CAS_PREFIX)
  }

  /** Where a sub-branch comes back to. */
  function ResumeNode(spec: NodeSpec): string {
    if Truthy(spec.fallback) then spec.fallback.value
    else if Truthy(spec.defaultNext) then spec.defaultNext.value
    else END_TOKEN
  }

  /** `_resolve_target`; `entries` gives the entry node of each loadable blob, None is an exception. */
  function Resolve(c: Cursor, raw: string, spec: NodeSpec, entries: map<string, string>): Option<Resolved> {
    if IsReturn(raw) || (raw == END_TOKEN && c.stack != []) then
      if c.stack == [] then Some(Resolved(c.blob, END_TOKEN, ANCHOR, c.stack))
      else
        var frame, rest := c.stack[|c.stack| - 1], c.stack[..|c.stack| - 1];
        if '#' !in frame then None
        else
          var node := if '#' in raw then After(raw) else After(frame);
          Some(Resolved(Before(frame), node, if node == END_TOKEN && rest == [] then ANCHOR else SYMLINK, rest))
    else if raw == END_TOKEN then Some(Resolved(c.blob, END_TOKEN, ANCHOR, c.stack))
    else if IsBranch(raw) then
      var stack := c.stack + [Frame(c.blob, ResumeNode(spec))];
      if '#' in raw then Some(Resolved(Before(raw), After(raw), SYMLINK, stack))
      else if raw in entries then Some(Resolved(raw, entries[raw], SYMLINK, stack))
      else None
    else Some(Resolved(c.blob, raw, CORE, c.stack))
  }

  function Moved(r: Resolved): Cursor {
    Cursor(r.blob, r.node, r.stack)
  }

  /** The cursor's blob and every frame's blob are free of '#', as hashes are. */
  ghost predicate WellFormed(c: Cursor) {
    && '#' !in c.blob
    && forall i :: 0 <= i < |c.stack| ==> '#' in c.stack[i]
  }

  // --- Bracketing --------------------------------------------------------------------------------------

  /** Entering pushes one frame that holds exactly the caller's blob and resume node. */
  lemma EnterPushes(c: Cursor, raw: string, spec: NodeSpec, entries: map<string, string>)
    requires WellFormed(c) && IsBranch(raw) && !IsReturn(raw) && raw != END_TOKEN
    requires Resolve(c, raw, spec, entries).Some?
    ensures var r := Resolve(c, raw, spec, entries).value;
            && WellFormed(Moved(r)) && r.stack == c.stack + [Frame(c.blob, ResumeNode(spec))]
            && r.blob == Before(raw) && r.kind == SYMLINK
            && r.node == if '#' in raw then After(raw) else entries[raw]
  {
    FrameRoundTrip(c.blob, ResumeNode(spec));
    if '#' !in raw { NoHash(raw); }
  }

  /**
   * A RETURN, or an END inside a sub-branch, gives back the caller's blob and stack and goes to
   * its resume node, or to the node that RETURN names.
   */
  lemma ReturnRestores(caller: Cursor, spec: NodeSpec, callee: Cursor, raw: string, any: NodeSpec,
                       entries: map<string, string>)
    requires '#' !in caller.blob && callee.stack == caller.stack + [Frame(caller.blob, ResumeNode(spec))]
    requires IsReturn(raw) || raw == END_TOKEN
    ensures Resolve(callee, raw, any, entries).Some?
    ensures var r := Resolve(callee, raw, any, entries).value;
            && r.blob == caller.blob && r.stack == caller.stack
            && r.node == (if '#' in raw then After(raw) else ResumeNode(spec))
            && (r.kind == ANCHOR <==> r.node == END_TOKEN && caller.stack == [])
  {
    FrameRoundTrip(caller.blob, ResumeNode(spec));
    assert callee.stack[..|callee.stack| - 1] == caller.stack;
  }

  /** Well-bracketed runs: plain moves, and sub-branches that are left by RETURN or END. */
  datatype Walk =
    | Stop
    | Plain(raw: string, spec: NodeSpec, rest: Walk)
    | Sub(raw: string, spec: NodeSpec, body: Walk, back: string, backSpec: NodeSpec, rest: Walk)

  type Moves = seq<(string, NodeSpec)>

  predicate IsPlain(raw: string) {
    !IsReturn(raw) && raw != END_TOKEN && !IsBranch(raw)
  }

  predicate Bracketed(w: Walk) {
    match w
    case Stop => true
    case Plain(raw, _, rest) => IsPlain(raw) && Bracketed(rest)
    case Sub(raw, _, body, back, _, rest) =>
      && IsBranch(raw) && !IsReturn(raw) && raw != END_TOKEN
      && (IsReturn(back) || back == END_TOKEN)
      && Bracketed(body) && Bracketed(rest)
  }

  function Flat(w: Walk): Moves {
    match w
    case Stop => []
    case Plain(raw, spec, rest) => [(raw, spec)] + Flat(rest)
    case Sub(raw, spec, body, back, backSpec, rest) => [(raw, spec)] + Flat(body) + [(back, backSpec)] + Flat(rest)
  }

  function Follow(c: Cursor, moves: Moves, entries: map<string, string>): Option<Cursor>
    decreases |moves|
  {
    if moves == [] then Some(c)
    else match Resolve(c, moves[0].0, moves[0].1, entries)
      case None => None
      case Some(r) => Follow(Moved(r), moves[1..], entries)
  }

  lemma {:induction false} FollowAppend(c: Cursor, a: Moves, b: Moves, entries: map<string, string>)
    ensures Follow(c, a + b, entries)
         == match Follow(c, a, entries) case None => None case Some(d) => Follow(d, b, entries)
    decreases |a|
  {
    if a == [] {
      assert a + b == b;
    } else {
      assert (a + b)[1..] == a[1..] + b;
      match Resolve(c, a[0].0, a[0].1, entries) {
        case None =>
        case Some(r) => FollowAppend(Moved(r), a[1..], b, entries);
      }
    }
  }

  /**
   * Every well-bracketed run that raises no exception ends in the blob and with the stack it
   * started with, however deeply it nests.
   */
  lemma {:induction false} BracketedRestores(c: Cursor, w: Walk, entries: map<string, string>)
    requires WellFormed(c) && Bracketed(w) && Follow(c, Flat(w), entries).Some?
    ensures Follow(c, Flat(w), entries).value.blob == c.blob
    ensures Follow(c, Flat(w), entries).value.stack == c.stack
    decreases w
  {
    match w {
      case Stop =>
      case Plain(raw, spec, rest) =>
        assert Flat(w)[1..] == Flat(rest);
        BracketedRestores(Moved(Resolve(c, raw, spec, entries).value), rest, entries);
      case Sub(raw, spec, body, back, backSpec, rest) =>
        SubReturns(c, w, entries);
        BracketedRestores(AfterSub(c, w, entries), rest, entries);
    }
  }

  /** Where a sub-branch run leaves its caller. */
  function AfterSub(c: Cursor, w: Walk, entries: map<string, string>): Cursor
    requires w.Sub?
  {
    Cursor(c.blob, if '#' in w.back then After(w.back) else ResumeNode(w.spec), c.stack)
  }

  /** A whole sub-branch, entry to return, acts on its caller as one move to the resume node. */
  lemma {:induction false} SubReturns(c: Cursor, w: Walk, entries: map<string, string>)
    requires WellFormed(c) && Bracketed(w) && w.Sub? && Follow(c, Flat(w), entries).Some?
    ensures Follow(c, Flat(w), entries) == Follow(AfterSub(c, w, entries), Flat(w.rest), entries)
    decreases w, 0
  {
    var enter, body, back, rest := [(w.raw, w.spec)], Flat(w.body), [(w.back, w.backSpec)], Flat(w.rest);
    assert Flat(w) == enter + (body + (back + rest));
    FollowAppend(c, enter, body + (back + rest), entries);
    assert enter[1..] == [] && back[1..] == [];
    EnterPushes(c, w.raw, w.spec, entries);
    var inside := Moved(Resolve(c, w.raw, w.spec, entries).value);
    FollowAppend(inside, body, back + rest, entries);
    BracketedRestores(inside, w.body, entries);
    var end := Follow(inside, body, entries).value;
    FollowAppend(end, back, rest, entries);
    ReturnRestores(c, w.spec, end, w.back, w.backSpec, entries);
  }

  // --- The root ------------------------------------------------------------------------------------------

  /** How `resume` computes the root blob of a restored cursor. */
  function RootOf(c: Cursor): string {
    if c.stack != [] then Before(c.stack[0]) else c.blob
  }

  /** Any single target, bracketed or not, keeps cursors well-formed and keeps their root. */
  lemma ResolveKeepsRoot(c: Cursor, raw: string, spec: NodeSpec, entries: map<string, string>)
    requires WellFormed(c) && Resolve(c, raw, spec, entries).Some?
    ensures WellFormed(Moved(Resolve(c, raw, spec, entries).value))
    ensures RootOf(Moved(Resolve(c, raw, spec, entries).value)) == RootOf(c)
  {
    var d := Moved(Resolve(c, raw, spec, entries).value);
    if IsReturn(raw) || raw == END_TOKEN {
      if c.stack != [] { BeforeHasNoHash(c.stack[|c.stack| - 1]); }
    } else if IsBranch(raw) {
      EnterPushes(c, raw, spec, entries);
      BeforeHasNoHash(raw);
      FrameRoundTrip(c.blob, ResumeNode(spec));
    }
  }

  /**
   * In every run from an empty stack the bottom frame, or the active blob once the stack is
   * empty, names the blob the run started in: `resume` recovers the right root.
   */
  lemma {:induction false} ResumeRecoversRoot(c: Cursor, moves: Moves, entries: map<string, string>)
    requires WellFormed(c) && Follow(c, moves, entries).Some?
    ensures WellFormed(Follow(c, moves, entries).value)
    ensures RootOf(Follow(c, moves, entries).value) == RootOf(c)
    ensures c.stack == [] ==> RootOf(Follow(c, moves, entries).value) == c.blob
    decreases |moves|
  {
    if moves != [] {
      ResolveKeepsRoot(c, moves[0].0, moves[0].1, entries);
      ResumeRecoversRoot(Moved(Resolve(c, moves[0].0, moves[0].1, entries).value), moves[1..], entries);
    }
  }
}
