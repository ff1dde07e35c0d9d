/**
 * `DagJoinBarrier._analyze_blob`: the depth-first search that classifies back edges and the
 * join nodes computed from the remaining forward edges (node/runtime/phase.py).
 */
module DagAnalysis {
  import opened CompactBlob

  type Edges = set<(string, string)>

  // --- Paths -------------------------------------------------------------------------------

  /** Every consecutive pair of `p` is an edge of `g` that is not in `cut`. */
  ghost predicate IsPath(g: Graph, cut: Edges, p: seq<string>) {
    && p != []
    && (forall i :: 0 <= i < |p| ==> p[i] in g)
    && (forall i :: 0 <= i < |p| - 1 ==> p[i + 1] in g[p[i]] && (p[i], p[i + 1]) !in cut)
  }

  ghost predicate Connects(g: Graph, cut: Edges, p: seq<string>, a: string, b: string) {
    IsPath(g, cut, p) && p[0] == a && p[|p| - 1] == b
  }

  /** `b` can be reached from `a` (in zero or more steps). */
  ghost predicate Reaches(g: Graph, a: string, b: string) {
    exists p :: Connects(g, {}, p, a, b)
  }

  ghost function Reachable(g: Graph, a: string): set<string> {
    set n | n in g && Reaches(g, a, n)
  }

  /** No closed walk of at least one edge starts in `within` once `cut` is removed. */
  ghost predicate Acyclic(g: Graph, cut: Edges, within: set<string>) {
    forall p :: IsPath(g, cut, p) && |p| >= 2 && p[0] in within ==> p[0] != p[|p| - 1]
  }

  lemma ReachesSelf(g: Graph, a: string)
    requires a in g
    ensures Reaches(g, a, a)
  {
    assert Connects(g, {}, [a], a, a);
  }

  lemma ReachesStep(g: Graph, a: string, b: string, c: string)
    requires Reaches(g, a, b) && c in g && c in g[b]
    ensures Reaches(g, a, c)
  {
    var p :| Connects(g, {}, p, a, b);
    assert Connects(g, {}, p + [c], a, c);
  }

  lemma ReachesCompose(g: Graph, a: string, b: string, c: string)
    requires Reaches(g, a, b) && Reaches(g, b, c)
    ensures Reaches(g, a, c)
  {
    var p :| Connects(g, {}, p, a, b);
    var q :| Connects(g, {}, q, b, c);
    var r := p + q[1..];
    forall i | 0 <= i < |r| - 1 ensures r[i + 1] in g[r[i]] {
      if i >= |p| - 1 { assert r[i + 1] == q[i - |p| + 2] && r[i] == q[i - |p| + 1]; }
    }
    assert Connects(g, {}, r, a, c);
  }

  lemma TailIsPath(g: Graph, cut: Edges, p: seq<string>)
    requires IsPath(g, cut, p) && |p| > 1
    ensures IsPath(g, cut, p[1..])
  {
    var q := p[1..];
    forall i | 0 <= i < |q| - 1 ensures q[i + 1] in g[q[i]] && (q[i], q[i + 1]) !in cut {
      assert q[i] == p[i + 1] && q[i + 1] == p[(i + 1) + 1];
    }
  }

  // --- The search --------------------------------------------------------------------------

  type Colors = map<string, int>   // 0 white, 1 grey (on the stack), 2 black (finished)

  /**
   * The search invariant. `rank` is the finishing order of the black nodes: a finished node only
   * has cut edges and edges to nodes that finished earlier; every cut edge closes a cycle.
   */
  ghost predicate Inv(g: Graph, color: Colors, cut: Edges, rank: map<string, nat>) {
    && Closed(g)
    && color.Keys == g.Keys
    && (forall n :: n in color ==> 0 <= color[n] <= 2)
    && (forall n :: n in rank <==> n in color && color[n] == 2)
    && (forall n, t :: n in rank && t in g[n] ==> Settled(cut, rank, n, t))
    && (forall e :: e in cut ==> ClosesCycle(g, color, e))
  }

  ghost predicate Settled(cut: Edges, rank: map<string, nat>, n: string, t: string)
    requires n in rank
  {
    (n, t) in cut || (t in rank && rank[t] < rank[n])
  }

  ghost predicate ClosesCycle(g: Graph, color: Colors, e: (string, string)) {
    && e.0 in g && e.1 in g[e.0]
    && e.0 in color && color[e.0] != 0
    && e.1 in color && color[e.1] != 0
    && Reaches(g, e.1, e.0)
  }

  /** Between two moments of the search below `u`, only white nodes changed, and they are now black. */
  ghost predicate Explored(g: Graph, u: string, before: Colors, after: Colors) {
    && before.Keys == after.Keys
    && (forall n :: n in after && before[n] != 0 ==> after[n] == before[n])
    && (forall n :: n in after && before[n] == 0 && after[n] != 0 ==> after[n] == 2 && Reaches(g, u, n))
  }

  ghost predicate GreyReaches(g: Graph, color: Colors, u: string) {
    forall n :: n in color && color[n] == 1 ==> Reaches(g, n, u)
  }

  ghost function White(color: Colors): set<string> {
    set n | n in color && color[n] == 0
  }

  lemma EnterKeeps(g: Graph, color: Colors, cut: Edges, rank: map<string, nat>, u: string)
    requires Inv(g, color, cut, rank) && u in color && color[u] == 0 && GreyReaches(g, color, u)
    ensures Inv(g, color[u := 1], cut, rank) && GreyReaches(g, color[u := 1], u)
  {
    ReachesSelf(g, u);
    forall e | e in cut ensures ClosesCycle(g, color[u := 1], e) {
      assert ClosesCycle(g, color, e);
    }
  }

  lemma CutKeeps(g: Graph, color: Colors, cut: Edges, rank: map<string, nat>, u: string, v: string)
    requires Inv(g, color, cut, rank) && u in g && v in g[u] && color[u] == color[v] == 1 && Reaches(g, v, u)
    ensures Inv(g, color, cut + {(u, v)}, rank)
  {
    forall n, t | n in rank && t in g[n] ensures Settled(cut + {(u, v)}, rank, n, t) {
      assert Settled(cut, rank, n, t);
    }
  }

  lemma FinishKeeps(g: Graph, color: Colors, cut: Edges, rank: map<string, nat>, u: string, r: nat)
    requires Inv(g, color, cut, rank) && u in color && color[u] == 1
    requires forall n :: n in rank ==> rank[n] < r
    requires forall t :: t in g[u] ==> (u, t) in cut || t in rank
    ensures Inv(g, color[u := 2], cut, rank[u := r])
  {
    forall n, t | n in rank[u := r] && t in g[n] ensures Settled(cut, rank[u := r], n, t) {
      if n != u { assert Settled(cut, rank, n, t); }
    }
    forall e | e in cut ensures ClosesCycle(g, color[u := 2], e) {
      assert ClosesCycle(g, color, e);
    }
  }

  /** A visit of a successor `v` of `u` composes with what was explored below `u` before. */
  lemma ExploredThrough(g: Graph, u: string, v: string, c0: Colors, c1: Colors, c2: Colors)
    requires Explored(g, u, c0, c1) && Explored(g, v, c1, c2)
    requires u in g && v in g && v in g[u]
    ensures Explored(g, u, c0, c2)
  {
    ReachesSelf(g, u);
    ReachesStep(g, u, u, v);
    forall n | n in c2 && c0[n] == 0 && c2[n] != 0 ensures c2[n] == 2 && Reaches(g, u, n) {
      if c1[n] == 0 { ReachesCompose(g, u, v, n); }
    }
  }

  lemma ExploredFinish(g: Graph, u: string, start: Colors, now: Colors)
    requires u in start && start[u] == 0 && u in g && Explored(g, u, start[u := 1], now)
    ensures Explored(g, u, start, now[u := 2])
  {
    ReachesSelf(g, u);
    var entered := start[u := 1];
    forall n | n in start && n != u ensures n in entered && entered[n] == start[n] {}
  }

  /** The mutable state of the search. */
  class Search {
    const g: Graph
    var color: Colors
    var backEdges: Edges
    ghost var rank: map<string, nat>
    ghost var clock: nat

    ghost predicate Valid()
      reads this
    {
      Inv(g, color, backEdges, rank) && forall n :: n in rank ==> rank[n] < clock
    }

    constructor (g: Graph)
      requires Closed(g)
      ensures Valid() && this.g == g && backEdges == {} && rank == map[]
      ensures forall n :: n in g ==> color[n] == 0
    {
      this.g := g;
      color := map n | n in g :: 0;
      backEdges := {};
      rank := map[];
      clock := 0;
    }

    /** `_dfs(u)`; the successors of `u` are taken in an arbitrary order. */
    method Visit(u: string)
      requires Valid() && u in color && color[u] == 0 && GreyReaches(g, color, u)
      modifies this
      ensures Valid() && Explored(g, u, old(color), color) && color[u] == 2
      ensures old(backEdges) <= backEdges
      decreases White(color)
    {
      EnterKeeps(g, color, backEdges, rank, u);
      color := color[u := 1];
      ghost var entered := color;
      var todo := g[u];
      while todo != {}
        invariant todo <= g[u]
        invariant Valid() && Explored(g, u, entered, color)
        invariant old(backEdges) <= backEdges
        invariant forall t :: t in g[u] - todo ==> (u, t) in backEdges || t in rank
        decreases todo
      {
        var v :| v in todo;
        todo := todo - {v};
        Look(u, v, old(color), entered);
      }
      ExploredFinish(g, u, old(color), color);
      Finish(u);
    }

    /** The last line of `_dfs(u)`: `u` turns black and gets the next finishing rank. */
    method Finish(u: string)
      requires Valid() && u in color && color[u] == 1
      requires forall t :: t in g[u] ==> (u, t) in backEdges || t in rank
      modifies this
      ensures Valid() && color == old(color)[u := 2] && backEdges == old(backEdges)
    {
      FinishKeeps(g, color, backEdges, rank, u, clock);
      color := color[u := 2];
      rank := rank[u := clock];
      clock := clock + 1;
    }

    /** One turn of the successor loop of `_dfs(u)`. */
    method Look(u: string, v: string, ghost start: Colors, ghost entered: Colors)
      requires Valid() && u in g && v in g[u]
      requires u in start && start[u] == 0 && entered == start[u := 1]
      requires Explored(g, u, entered, color) && GreyReaches(g, entered, u)
      modifies this
      ensures Valid() && Explored(g, u, entered, color)
      ensures (u, v) in backEdges || v in rank
      ensures old(backEdges) <= backEdges && old(rank.Keys) <= rank.Keys
      decreases White(start), 0
    {
      if color[v] == 1 {
        CutKeeps(g, color, backEdges, rank, u, v);
        backEdges := backEdges + {(u, v)};
      } else if color[v] == 0 {
        forall n | n in color && color[n] == 1 ensures Reaches(g, n, v) {
          ReachesStep(g, n, u, v);
        }
        ghost var mid := color;
        assert White(color) < White(start) by {
          assert u in White(start) && u !in White(color);
        }
        Visit(v);
        ExploredThrough(g, u, v, entered, mid, color);
      }
    }
  }

  // --- What the search establishes -----------------------------------------------------------

  /** Along a path of uncut edges from a finished node, the finishing rank strictly falls. */
  lemma {:induction false} RankFalls(g: Graph, color: Colors, cut: Edges, rank: map<string, nat>, p: seq<string>)
    requires Inv(g, color, cut, rank) && IsPath(g, cut, p) && p[0] in rank
    ensures p[|p| - 1] in rank && rank[p[|p| - 1]] <= rank[p[0]] - (|p| - 1)
    decreases |p|
  {
    if |p| > 1 {
      assert p[1] in g[p[0]] && Settled(cut, rank, p[0], p[1]);
      var q := p[1..];
      TailIsPath(g, cut, p);
      RankFalls(g, color, cut, rank, q);
    }
  }

  lemma FinishedAcyclic(g: Graph, color: Colors, cut: Edges, rank: map<string, nat>)
    requires Inv(g, color, cut, rank)
    ensures Acyclic(g, cut, rank.Keys)
  {
    forall p | IsPath(g, cut, p) && |p| >= 2 && p[0] in rank ensures p[0] != p[|p| - 1] {
      RankFalls(g, color, cut, rank, p);
    }
  }

  /** With nothing left grey, the finished nodes are closed under every edge. */
  lemma {:induction false} FinishedClosed(g: Graph, color: Colors, cut: Edges, rank: map<string, nat>, p: seq<string>)
    requires Inv(g, color, cut, rank) && (forall n :: n in color ==> color[n] != 1)
    requires IsPath(g, {}, p) && p[0] in rank
    ensures p[|p| - 1] in rank
    decreases |p|
  {
    if |p| > 1 {
      var q := p[1..];
      assert p[1] in g[p[0]] && Settled(cut, rank, p[0], p[1]);
      if (p[0], p[1]) in cut { assert ClosesCycle(g, color, (p[0], p[1])); }
      TailIsPath(g, {}, p);
      FinishedClosed(g, color, cut, rank, q);
    }
  }

  /**
   * The whole search from `entry`, for any visiting order: it colours exactly the nodes
   * reachable from the entry, each cut edge lies on a cycle, and cutting them leaves no cycle.
   */
  method Colour(g: Graph, entry: string) returns (seen: set<string>, cut: Edges)
    requires Closed(g)
    ensures seen == Reachable(g, entry)
    ensures forall e :: e in cut ==> e.0 in seen && e.0 in g && e.1 in g[e.0] && Reaches(g, e.1, e.0)
    ensures Acyclic(g, cut, Reachable(g, entry))
  {
    var search := new Search(g);
    if entry in search.color {
      search.Visit(entry);
      FinishedAcyclic(g, search.color, search.backEdges, search.rank);
      forall n | n in g && Reaches(g, entry, n) ensures n in search.rank {
        var p :| Connects(g, {}, p, entry, n);
        FinishedClosed(g, search.color, search.backEdges, search.rank, p);
      }
      assert search.rank.Keys == Reachable(g, entry);
      assert forall e :: e in search.backEdges ==> ClosesCycle(g, search.color, e);
    }
    seen := set n | n in search.color && search.color[n] != 0;
    cut := search.backEdges;
  }

  // --- Join nodes ----------------------------------------------------------------------------

  function Predecessors(g: Graph, n: string): set<string> {
    set p | p in g && n in g[p]
  }

  /** The predecessors of `n` whose edge survives the cut. */
  function Forward(preds: set<string>, n: string, cut: Edges): set<string> {
    set p | p in preds && (p, n) !in cut
  }

  /** The nodes with at least two predecessors left after `cut` is removed. */
  function JoinNodes(g: Graph, cut: Edges): set<string> {
    set n | n in g && |Forward(Predecessors(g, n), n, cut)| >= 2
  }

  datatype Topology = Topology(entry: string, backEdges: Edges, joinNodes: set<string>)

  /** What the analyser promises about a blob. */
  ghost predicate Describes(t: Topology, blob: Blob) {
    var g := Successors(blob);
    && t.entry == blob.entry
    && (forall e :: e in t.backEdges ==>
          e.0 in Reachable(g, blob.entry) && e.0 in g && e.1 in g[e.0] && Reaches(g, e.1, e.0))
    && Acyclic(g, t.backEdges, Reachable(g, blob.entry))
    && t.joinNodes == JoinNodes(g, t.backEdges)
  }

  /** `inEdges` is the reverse of `outEdges`. */
  predicate Mirrors(outEdges: Graph, inEdges: Graph) {
    && outEdges.Keys == inEdges.Keys
    && (forall n :: n in inEdges ==> inEdges[n] <= outEdges.Keys)
    && (forall n, p :: n in inEdges && p in outEdges ==> (p in inEdges[n] <==> n in outEdges[p]))
  }

  lemma MirrorsAdd(outEdges: Graph, inEdges: Graph, u: string, t: string)
    requires Mirrors(outEdges, inEdges) && u in outEdges && t in outEdges
    ensures Mirrors(outEdges[u := outEdges[u] + {t}], inEdges[t := inEdges[t] + {u}])
  {
  }

  lemma KeptAppend(targets: seq<string>, t: string, nodes: set<string>)
    ensures Kept(targets + [t], nodes) == Kept(targets, nodes) + (if t in nodes then {t} else {})
  {
  }

  /** The edges of one node, read by the inner loop of `_analyze_blob`. */
  method AddTargets(nid: string, targets: seq<string>, out0: Graph, in0: Graph)
    returns (outEdges: Graph, inEdges: Graph)
    requires Mirrors(out0, in0) && nid in out0 && out0[nid] == {}
    ensures Mirrors(outEdges, inEdges)
    ensures outEdges.Keys == out0.Keys && outEdges[nid] == Kept(targets, out0.Keys)
    ensures forall n :: n in out0 && n != nid ==> outEdges[n] == out0[n]
  {
    outEdges, inEdges := out0, in0;
    assert Kept(targets[..0], out0.Keys) == {};
    for i := 0 to |targets|
      invariant Mirrors(outEdges, inEdges)
      invariant outEdges.Keys == out0.Keys && outEdges[nid] == Kept(targets[..i], out0.Keys)
      invariant forall n :: n in out0 && n != nid ==> outEdges[n] == out0[n]
    {
      var t := targets[i];
      KeptAppend(targets[..i], t, out0.Keys);
      assert targets[..i + 1] == targets[..i] + [t];
      if t in out0 {
        MirrorsAdd(outEdges, inEdges, nid, t);
        outEdges := outEdges[nid := outEdges[nid] + {t}];
        inEdges := inEdges[t := inEdges[t] + {nid}];
      }
    }
    assert targets[..|targets|] == targets;
  }

  /** The edge maps built by the first loop of `_analyze_blob`. */
  method ReadEdges(blob: Blob) returns (outEdges: Graph, inEdges: Graph)
    ensures outEdges == Successors(blob)
    ensures inEdges.Keys == blob.graph.Keys
    ensures forall n :: n in inEdges ==> inEdges[n] == Predecessors(outEdges, n)
  {
    outEdges := map n | n in blob.graph :: {};
    inEdges := map n | n in blob.graph :: {};
    var todo := blob.graph.Keys;
    while todo != {}
      invariant Mirrors(outEdges, inEdges) && Rows(blob, outEdges, todo)
      decreases todo
    {
      var nid :| nid in todo;
      var before, targets := outEdges, Targets(blob.graph[nid]);
      outEdges, inEdges := AddTargets(nid, targets, before, inEdges);
      RowsStep(blob, before, outEdges, todo, nid);
      todo := todo - {nid};
    }
    MirrorsPredecessors(outEdges, inEdges);
    AdjacencyIsSuccessors(blob, outEdges);
  }

  /** `g` holds the edges of every node except those in `todo`, which have none yet. */
  ghost predicate Rows(blob: Blob, g: Graph, todo: set<string>) {
    && g.Keys == blob.graph.Keys && todo <= g.Keys
    && forall n :: n in g ==> g[n] == if n in todo then {} else Row(blob, n)
  }

  lemma RowsStep(blob: Blob, before: Graph, after: Graph, todo: set<string>, nid: string)
    requires Rows(blob, before, todo) && nid in todo
    requires after.Keys == before.Keys && after[nid] == Kept(Targets(blob.graph[nid]), before.Keys)
    requires forall n :: n in before && n != nid ==> after[n] == before[n]
    ensures Rows(blob, after, todo - {nid})
  {
    assert after[nid] == Row(blob, nid);
  }

  lemma AdjacencyIsSuccessors(blob: Blob, g: Graph)
    requires Rows(blob, g, {})
    ensures g == Successors(blob)
  {
  }

  lemma MirrorsPredecessors(outEdges: Graph, inEdges: Graph)
    requires Mirrors(outEdges, inEdges)
    ensures forall n :: n in inEdges ==> inEdges[n] == Predecessors(outEdges, n)
  {
  }

  /** `_analyze_blob`. */
  method Analyze(blob: Blob) returns (t: Topology)
    ensures Describes(t, blob)
  {
    var outEdges, inEdges := ReadEdges(blob);
    var _, backEdges := Colour(outEdges, blob.entry);
    var joins := set n | n in inEdges && |Forward(inEdges[n], n, backEdges)| >= 2;
    t := Topology(blob.entry, backEdges, joins);
  }

  /** An edge that closes a cycle is on a closed walk. */
  lemma CutEdgeIsOnCycle(g: Graph, u: string, v: string)
    requires u in g && v in g && v in g[u] && Reaches(g, v, u)
    ensures exists p :: IsPath(g, {}, p) && |p| >= 2 && p[0] == v == p[|p| - 1]
  {
    var p :| Connects(g, {}, p, v, u);
    var q := p + [v];
    assert IsPath(g, {}, q);
  }

  /**
   * A blob without cycles below its entry loses no edge, so its join nodes are exactly the
   * nodes with two or more predecessors; a blob with such a cycle loses at least one edge.
   */
  lemma BackEdgesExactlyOnCycles(t: Topology, blob: Blob)
    requires Describes(t, blob)
    ensures t.backEdges == {} <==> Acyclic(Successors(blob), {}, Reachable(Successors(blob), blob.entry))
    ensures t.backEdges == {} ==>
      t.joinNodes == set n | n in blob.graph && |Predecessors(Successors(blob), n)| >= 2
  {
    var g := Successors(blob);
    var seen := Reachable(g, blob.entry);
    if Acyclic(g, {}, seen) {
      forall e | e in t.backEdges ensures false {
        CutEdgeIsOnCycle(g, e.0, e.1);
        var p :| IsPath(g, {}, p) && |p| >= 2 && p[0] == e.1 == p[|p| - 1];
        ReachesStep(g, blob.entry, e.0, e.1);
      }
    }
    if t.backEdges == {} {
      assert forall n :: n in g ==> Forward(Predecessors(g, n), n, {}) == Predecessors(g, n);
    }
  }
}
