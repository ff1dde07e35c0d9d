/**
 * `EpochManager.load_history`/`resolve` and the snapshot-building part of `anchor_commit`
 * (state/phase/commit.py): a window of three snapshots that must agree with the full history.
 */
module EpochHistory {
  import opened Wrappers
  import AnchorStore

  const ERA_DEPTH := 3

  type States = map<string, string>

  datatype Snapshot = Snapshot(repos: States, cached: States)

  /** One applied epoch: the states it aligned, and the anchor's own commit when the seal reports one. */
  datatype Epoch = Epoch(aligned: States, anchorResult: Option<string>)

  /** The names an epoch records, the anchor included. */
  function Recorded(e: Epoch, anchor: string): States {
    if e.anchorResult.Some? then e.aligned[anchor := e.anchorResult.value] else e.aligned
  }

  function Last(history: seq<Snapshot>): Option<Snapshot> {
    if history == [] then None else Some(history[|history| - 1])
  }

  /** The lagging names carried forward; the anchor's own name is not. */
  function Carried(last: Option<Snapshot>, aligned: States, anchor: string): States {
    match last
    case None => map[]
    case Some(s) =>
      var total := s.repos + s.cached;
      map n | n in total && n !in aligned && n != anchor :: total[n]
  }

  function NextSnapshot(history: seq<Snapshot>, e: Epoch, anchor: string): Snapshot {
    Snapshot(Recorded(e, anchor), Carried(Last(history), e.aligned, anchor))
  }

  function Lookup(s: Snapshot, name: string): Option<string> {
    if name in s.repos then Some(s.repos[name])
    else if name in s.cached then Some(s.cached[name])
    else None
  }

  /** The newest snapshot of the window that knows the name. */
  function Newest(window: seq<Snapshot>, name: string): Option<string>
    decreases |window|
  {
    if window == [] then None
    else
      var n := |window| - 1;
      if Lookup(window[n], name).Some? then Lookup(window[n], name) else Newest(window[..n], name)
  }

  /** `history[-k:]`. */
  function Tail<T>(s: seq<T>, k: nat): seq<T> {
    if |s| <= k then s else s[|s| - k..]
  }

  function HeadOrGenesis(heads: States, name: string): string {
    if name in heads && heads[name] != "" then heads[name] else AnchorStore.GENESIS
  }

  /** `resolve`. */
  function Resolve(history: seq<Snapshot>, heads: States, name: string): string {
    var found := Newest(Tail(history, ERA_DEPTH), name);
    if found.Some? then found.value else HeadOrGenesis(heads, name)
  }

  // --- The full history -----------------------------------------------------------------------------------

  function HistoryOf(anchor: string, epochs: seq<Epoch>): seq<Snapshot>
    decreases |epochs|
  {
    if epochs == [] then []
    else
      var n := |epochs| - 1;
      var h := HistoryOf(anchor, epochs[..n]);
      h + [NextSnapshot(h, epochs[n], anchor)]
  }

  /** The hash of the most recent epoch that recorded the name, however long ago. */
  function Latest(anchor: string, epochs: seq<Epoch>, name: string): Option<string>
    decreases |epochs|
  {
    if epochs == [] then None
    else
      var n := |epochs| - 1;
      if name in Recorded(epochs[n], anchor) then Some(Recorded(epochs[n], anchor)[name])
      else Latest(anchor, epochs[..n], name)
  }

  lemma {:induction false} HistoryLength(anchor: string, epochs: seq<Epoch>)
    ensures |HistoryOf(anchor, epochs)| == |epochs|
    decreases |epochs|
  {
    if epochs != [] { HistoryLength(anchor, epochs[..|epochs| - 1]); }
  }

  /**
   * Every snapshot keeps the aligned and the carried names apart, never carries the anchor, and
   * its two tables together hold, for every other name ever aligned, the most recent hash.
   */
  lemma {:induction false} SnapshotsCarryEverything(anchor: string, epochs: seq<Epoch>, name: string)
    requires epochs != []
    ensures var h := HistoryOf(anchor, epochs);
            && |h| == |epochs|
            && h[|h| - 1].repos.Keys !! h[|h| - 1].cached.Keys
            && anchor !in h[|h| - 1].cached
            && (name != anchor ==> Lookup(h[|h| - 1], name) == Latest(anchor, epochs, name))
    decreases |epochs|
  {
    HistoryLength(anchor, epochs);
    var n := |epochs| - 1;
    if n > 0 {
      SnapshotsCarryEverything(anchor, epochs[..n], name);
    } else {
      assert epochs[..n] == [];
    }
  }

  lemma {:induction false} NeverRecorded(anchor: string, epochs: seq<Epoch>, name: string, from: nat)
    requires name != anchor && Latest(anchor, epochs, name) == None && from <= |epochs|
    ensures |HistoryOf(anchor, epochs)| == |epochs| && Newest(HistoryOf(anchor, epochs)[from..], name) == None
    decreases |epochs|
  {
    HistoryLength(anchor, epochs);
    if from < |epochs| {
      var n := |epochs| - 1;
      var h := HistoryOf(anchor, epochs);
      SnapshotsCarryEverything(anchor, epochs, name);
      NeverRecorded(anchor, epochs[..n], name, from);
      HistoryLength(anchor, epochs[..n]);
      assert h[from..][..n - from] == HistoryOf(anchor, epochs[..n])[from..];
      assert h[from..][n - from] == h[n];
    }
  }

  /**
   * For every applied history and every repository but the anchor, the three-snapshot window
   * answers what the whole history would: the hash of the most recent alignment, and the head
   * (or "genesis") for a name never aligned.
   */
  lemma {:induction false} ResolveIsLatest(anchor: string, epochs: seq<Epoch>, heads: States, name: string)
    requires name != anchor
    ensures Resolve(HistoryOf(anchor, epochs), heads, name)
         == (match Latest(anchor, epochs, name) case Some(hash) => hash case None => HeadOrGenesis(heads, name))
  {
    var h := HistoryOf(anchor, epochs);
    HistoryLength(anchor, epochs);
    if epochs != [] {
      SnapshotsCarryEverything(anchor, epochs, name);
      var window := Tail(h, ERA_DEPTH);
      assert window[|window| - 1] == h[|h| - 1];
    }
    if Latest(anchor, epochs, name) == None {
      NeverRecorded(anchor, epochs, name, |epochs| - |Tail(h, ERA_DEPTH)|);
    }
  }

  // --- The anchor's own name ------------------------------------------------------------------------------

  lemma {:induction false} AnchorWindow(anchor: string, epochs: seq<Epoch>, from: nat)
    requires from <= |epochs|
    ensures |HistoryOf(anchor, epochs)| == |epochs|
    ensures Newest(HistoryOf(anchor, epochs)[from..], anchor) == Latest(anchor, epochs[from..], anchor)
    decreases |epochs|
  {
    HistoryLength(anchor, epochs);
    if from < |epochs| {
      var n := |epochs| - 1;
      var h := HistoryOf(anchor, epochs);
      SnapshotsCarryEverything(anchor, epochs, anchor);
      AnchorWindow(anchor, epochs[..n], from);
      assert h[from..][..n - from] == HistoryOf(anchor, epochs[..n])[from..];
      assert epochs[from..][..n - from] == epochs[..n][from..];
      assert h[from..][n - from] == h[n] && epochs[from..][n - from] == epochs[n];
    }
  }

  lemma {:induction false} LatestOfTail(anchor: string, epochs: seq<Epoch>, name: string, from: nat)
    requires from <= |epochs| && Latest(anchor, epochs[from..], name).Some?
    ensures Latest(anchor, epochs, name) == Latest(anchor, epochs[from..], name)
    decreases |epochs|
  {
    var n := |epochs| - 1;
    assert epochs[from..][n - from] == epochs[n];
    if name !in Recorded(epochs[n], anchor) {
      assert epochs[from..][..n - from] == epochs[..n][from..];
      LatestOfTail(anchor, epochs[..n], name, from);
    }
  }

  /**
   * The anchor's own hash is not carried forward: the window finds it exactly when one of the last
   * three epochs recorded it, and otherwise `resolve` answers with the head or "genesis".
   */
  lemma {:induction false} AnchorResolveIff(anchor: string, epochs: seq<Epoch>, heads: States)
    requires Latest(anchor, epochs, anchor).Some?
    ensures Resolve(HistoryOf(anchor, epochs), heads, anchor) == Latest(anchor, epochs, anchor).value
       <==> Latest(anchor, Tail(epochs, ERA_DEPTH), anchor).Some?
            || HeadOrGenesis(heads, anchor) == Latest(anchor, epochs, anchor).value
  {
    HistoryLength(anchor, epochs);
    var from := if |epochs| <= ERA_DEPTH then 0 else |epochs| - ERA_DEPTH;
    assert epochs[0..] == epochs && HistoryOf(anchor, epochs)[0..] == HistoryOf(anchor, epochs);
    AnchorWindow(anchor, epochs, from);
    if Latest(anchor, epochs[from..], anchor).Some? {
      LatestOfTail(anchor, epochs, anchor, from);
    }
  }

  /** Three epochs without an anchor result make `resolve` forget the anchor. */
  lemma AnchorForgotten()
    ensures var quiet := Epoch(map["r" := "h"], None);
            var epochs := [Epoch(map["r" := "g"], Some("a1")), quiet, quiet, quiet];
            && Latest("anchor", epochs, "anchor") == Some("a1")
            && Resolve(HistoryOf("anchor", epochs), map[], "anchor") == AnchorStore.GENESIS
  {
    var quiet := Epoch(map["r" := "h"], None);
    var epochs := [Epoch(map["r" := "g"], Some("a1"))];
    assert epochs[..0] == [];
    QuietEpoch("anchor", epochs, quiet);
    QuietEpoch("anchor", epochs + [quiet], quiet);
    QuietEpoch("anchor", epochs + [quiet] + [quiet], quiet);
    var all := epochs + [quiet] + [quiet] + [quiet];
    assert all == [Epoch(map["r" := "g"], Some("a1")), quiet, quiet, quiet];
    QuietEpoch("anchor", [], quiet);
    QuietEpoch("anchor", [] + [quiet], quiet);
    QuietEpoch("anchor", [] + [quiet] + [quiet], quiet);
    assert all[1..] == [] + [quiet] + [quiet] + [quiet];
    AnchorWindow("anchor", all, 1);
  }

  lemma {:induction false} QuietEpoch(anchor: string, epochs: seq<Epoch>, e: Epoch)
    requires anchor !in e.aligned && e.anchorResult == None
    ensures Latest(anchor, epochs + [e], anchor) == Latest(anchor, epochs, anchor)
  {
    assert (epochs + [e])[..|epochs|] == epochs;
  }

  // --- An alignment -------------------------------------------------------------------------------------------

  /** The states the first k inscriptions align; the later of two entries for one name counts. */
  function Inscribed(repos: seq<string>, parents: seq<string>, inscribe: (nat, string) -> Option<string>,
                     k: nat): States
    requires k <= |parents| && k <= |repos|
  {
    if k == 0 then map[]
    else
      var before := Inscribed(repos, parents, inscribe, k - 1);
      match inscribe(k - 1, parents[k - 1])
      case Some(hash) => before[repos[k - 1] := hash]
      case None => before
  }

  lemma {:induction false} InscribedPrefix(repos: seq<string>, parents: seq<string>, more: seq<string>,
                                           inscribe: (nat, string) -> Option<string>, k: nat)
    requires k <= |parents| && k <= |repos|
    ensures Inscribed(repos, parents + more, inscribe, k) == Inscribed(repos, parents, inscribe, k)
  {
    if k > 0 { InscribedPrefix(repos, parents, more, inscribe, k - 1); }
  }

  /** Each parent is the resolved state of its repository: the most recent alignment, if there is one. */
  ghost predicate Continues(history: seq<Snapshot>, epochs: seq<Epoch>, heads: States, anchor: string,
                            repos: seq<string>, parents: seq<string>)
  {
    && |parents| <= |repos|
    && (forall k :: 0 <= k < |parents| ==> parents[k] == Resolve(history, heads, repos[k]))
    && (forall k :: 0 <= k < |parents| && repos[k] != anchor && Latest(anchor, epochs, repos[k]).Some? ==>
          parents[k] == Latest(anchor, epochs, repos[k]).value)
  }

  lemma {:induction false} ContinuesSnoc(history: seq<Snapshot>, epochs: seq<Epoch>, heads: States, anchor: string,
                                         repos: seq<string>, parents: seq<string>)
    requires history == HistoryOf(anchor, epochs) && |parents| < |repos|
    requires Continues(history, epochs, heads, anchor, repos, parents)
    ensures Continues(history, epochs, heads, anchor, repos, parents + [Resolve(history, heads, repos[|parents|])])
  {
    var repo := repos[|parents|];
    if repo != anchor { ResolveIsLatest(anchor, epochs, heads, repo); }
  }

  // --- The class ---------------------------------------------------------------------------------------------

  class EpochManager {
    const name: string
    var history: seq<Snapshot>
    var heads: States
    ghost var epochs: seq<Epoch>       // the epochs applied so far

    ghost predicate Valid()
      reads this
    {
      history == HistoryOf(name, epochs)
    }

    constructor (name: string, heads: States)
      ensures Valid() && this.name == name && this.heads == heads && epochs == []
    {
      this.name, this.heads, history, epochs := name, heads, [], [];
    }

    /** `resolve`: from the newest of the last three snapshots to the oldest. */
    method ResolveState(repo: string) returns (hash: string)
      requires Valid()
      ensures hash == Resolve(history, heads, repo)
      ensures repo != name && Latest(name, epochs, repo).Some? ==> hash == Latest(name, epochs, repo).value
    {
      if repo != name { ResolveIsLatest(name, epochs, heads, repo); }
      var window := Tail(history, ERA_DEPTH);
      hash := SearchBack(window, repo);
    }

    method SearchBack(window: seq<Snapshot>, repo: string) returns (hash: string)
      ensures hash == (match Newest(window, repo) case Some(h) => h case None => HeadOrGenesis(heads, repo))
    {
      assert window[..|window|] == window;
      var i := |window|;
      while i > 0
        invariant 0 <= i <= |window| && Newest(window, repo) == Newest(window[..i], repo)
      {
        i := i - 1;
        assert window[..i + 1][..i] == window[..i];
        if repo in window[i].repos { return window[i].repos[repo]; }
        if repo in window[i].cached { return window[i].cached[repo]; }
      }
      return if repo in heads && heads[repo] != "" then heads[repo] else AnchorStore.GENESIS;
    }

    /** The lagging names of the last snapshot. */
    method CarryForward(aligned: States) returns (cached: States)
      ensures cached == Carried(Last(history), aligned, name)
    {
      cached := map[];
      if history == [] { return; }
      var last := history[|history| - 1];
      var total := last.repos + last.cached;
      var todo := total.Keys;
      while todo != {}
        invariant todo <= total.Keys
        invariant forall n :: n in cached <==> n in total && n !in todo && n !in aligned && n != name
        invariant forall n :: n in cached ==> cached[n] == total[n]
        decreases todo
      {
        var n :| n in todo;
        if n !in aligned && n != name { cached := cached[n := total[n]]; }
        todo := todo - {n};
      }
      assert cached == Carried(Last(history), aligned, name);
    }

    /** The inscription loop: `inscribe` gives the hash of the k-th commit, None when it raises. */
    method InscribeAll(repos: seq<string>, inscribe: (nat, string) -> Option<string>)
      returns (parents: seq<string>, aligned: States, raised: bool)
      requires Valid()
      ensures Continues(history, epochs, heads, name, repos, parents) &&
              aligned == Inscribed(repos, parents, inscribe, |parents|)
      ensures raised <==> parents != [] && inscribe(|parents| - 1, parents[|parents| - 1]).None?
      ensures !raised ==> |parents| == |repos|
    {
      parents, aligned := [], map[];
      for k := 0 to |repos|
        invariant |parents| == k && Continues(history, epochs, heads, name, repos, parents) &&
                  aligned == Inscribed(repos, parents, inscribe, k)
        invariant k > 0 ==> inscribe(k - 1, parents[k - 1]).Some?
      {
        var parent := ResolveState(repos[k]);
        InscribedPrefix(repos, parents, [parent], inscribe, k);
        ContinuesSnoc(history, epochs, heads, name, repos, parents);
        parents := parents + [parent];
        var hash := inscribe(k, parent);
        if hash.None? { return parents, aligned, true; }
        aligned := aligned[repos[k] := hash.value];
      }
      return parents, aligned, false;
    }

    /**
     * `anchor_commit`: every repository is inscribed on top of its most recent alignment, then the
     * snapshot is sealed and, when applied, appended to the history. `seal` is the engine's answer
     * with its optional anchor result, None when it refuses.
     */
    method AnchorCommit(repos: seq<string>, inscribe: (nat, string) -> Option<string>,
                        seal: (States, States) -> Option<Option<string>>, apply: bool)
      returns (parents: seq<string>, aligned: States, raised: bool)
      requires Valid()
      modifies this`history, this`epochs
      ensures Valid() && Continues(old(history), old(epochs), heads, name, repos, parents) &&
              aligned == Inscribed(repos, parents, inscribe, |parents|)
      ensures !raised ==> |parents| == |repos|
      ensures var sealed := seal(aligned, Carried(Last(old(history)), aligned, name));
              epochs
              == if raised || sealed.None? || !apply then old(epochs)
                 else old(epochs) + [Epoch(aligned, sealed.value)]
    {
      parents, aligned, raised := InscribeAll(repos, inscribe);
      if raised { return; }
      var cached := CarryForward(aligned);
      var sealed := seal(aligned, cached);
      if sealed.None? || !apply { return; }
      Append(aligned, cached, sealed.value);
    }

    /** The sealed snapshot becomes the last one of the history. */
    method Append(aligned: States, cached: States, anchorResult: Option<string>)
      requires Valid() && cached == Carried(Last(history), aligned, name)
      modifies this`history, this`epochs
      ensures Valid() && epochs == old(epochs) + [Epoch(aligned, anchorResult)]
    {
      ghost var e := Epoch(aligned, anchorResult);
      assert (epochs + [e])[..|epochs|] == epochs;
      var recorded := if anchorResult.Some? then aligned[name := anchorResult.value] else aligned;
      history := history + [Snapshot(recorded, cached)];
      epochs := epochs + [e];
    }
  }
}
