/**
 * The compact blob (`_m`/`g` dictionaries) that the compiler emits and the runtime reads,
 * with the reserved tokens of arch/contract/fsm.py.
 */
module CompactBlob {
  import opened Wrappers

  const CAS_PREFIX := "blob:"
  const BRANCH_PREFIX := "branch:"
  const END_TOKEN := "END"
  const RETURN_TOKEN := "RETURN"

  /** The `nx` entry: absent, one target, or a fan-out list. */
  datatype Next = NoNext | One(target: string) | Many(targets: seq<string>)

  datatype Rule = Rule(cond: string, next: Option<string>)

  datatype NodeSpec = NodeSpec(isRouter: bool, next: Next, rules: seq<Rule>,
                               defaultNext: Option<string>, fallback: Option<string>)

  datatype Blob = Blob(entry: string, graph: map<string, NodeSpec>)

  /** Python truthiness of an optional string. */
  predicate Truthy(s: Option<string>) {
    s.Some? && s.value != ""
  }

  function RuleTargets(rules: seq<Rule>): seq<string> {
    if rules == [] then []
    else (if rules[0].next.Some? then [rules[0].next.value] else []) + RuleTargets(rules[1..])
  }

  lemma {:induction false} RuleTargetsMembers(rules: seq<Rule>, t: string)
    ensures t in RuleTargets(rules) <==> exists i :: 0 <= i < |rules| && rules[i].next == Some(t)
  {
    if rules != [] {
      RuleTargetsMembers(rules[1..], t);
      if rules[0].next == Some(t) {
        assert t in RuleTargets(rules);
      }
      if i :| 0 <= i < |rules| && rules[i].next == Some(t) {
        if i > 0 { assert rules[1..][i - 1].next == Some(t); }
      }
      if t in RuleTargets(rules[1..]) {
        var j :| 0 <= j < |rules[1..]| && rules[1..][j].next == Some(t);
        assert rules[j + 1].next == Some(t);
      }
    }
  }

  /** The targets a node may move to, in the order the analyser lists them. */
  function Targets(spec: NodeSpec): seq<string> {
    var direct :=
      if spec.isRouter then
        RuleTargets(spec.rules) + (if Truthy(spec.defaultNext) then [spec.defaultNext.value] else [])
      else
        match spec.next
        case NoNext => []
        case One(t) => [t]
        case Many(ts) => ts;
    if Truthy(spec.fallback) && spec.fallback.value !in direct then direct + [spec.fallback.value] else direct
  }

  type Graph = map<string, set<string>>

  /** The targets that are nodes. */
  function Kept(targets: seq<string>, nodes: set<string>): set<string> {
    set t | t in targets && t in nodes
  }

  function Row(blob: Blob, n: string): set<string>
    requires n in blob.graph
  {
    Kept(Targets(blob.graph[n]), blob.graph.Keys)
  }

  /** Adjacency of a blob: the targets that are themselves nodes of the blob. */
  function Successors(blob: Blob): (g: Graph)
    ensures Closed(g)
  {
    map n | n in blob.graph :: Row(blob, n)
  }

  predicate Closed(g: Graph) {
    forall n, t :: n in g && t in g[n] ==> t in g
  }
}
