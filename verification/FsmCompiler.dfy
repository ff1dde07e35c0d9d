/**
 * The front end of the FSM compiler (arch/xor/fsm/compiler.py): a states-language schema becomes
 * a fragment signature, the signature is validated and projected to a compact blob, and the
 * barrier analyser reads that blob back.
 */
module FsmCompiler {
  import opened Wrappers
  import opened CompactBlob
  import opened Sequences

  // --- Schema and signature -----------------------------------------------------------------------------

  datatype Choice = Choice(cond: string, next: Option<string>)

  /** A state: `next` of a task is one target or a list; `onError` is the extracted `Catch` target. */
  datatype State =
    | Task(next: Option<seq<string>>, onError: Option<string>)
    | Choose(choices: seq<Choice>, default: Option<string>)
    | Terminal                     // Succeed, Fail
    | Ignored                      // every other type

  datatype Schema = Schema(startAt: Option<string>, states: map<string, State>)

  datatype EdgeMode = Direct | Conditional | Fallback

  datatype Edge = Edge(target: string, mode: EdgeMode, cond: string)

  datatype Fragment = Fragment(isRouter: bool, relations: seq<Edge>)

  datatype Sig = Sig(entry: string, nodes: map<string, Fragment>)

  /** `is_external_or_terminal`. */
  predicate IsExternal(target: string) {
    || target == END_TOKEN || target == RETURN_TOKEN
    || StartsWith(target, CAS_PREFIX) || StartsWith(target, BRANCH_PREFIX) || StartsWith(target, RETURN_TOKEN + "#")
  }

  function DirectEdges(targets: seq<string>): (r: seq<Edge>)
    ensures |r| == |targets| && forall i :: 0 <= i < |r| ==> r[i] == Edge(targets[i], Direct, "")
  {
    seq(|targets|, i requires 0 <= i < |targets| => Edge(targets[i], Direct, ""))
  }

  predicate Complete(choices: seq<Choice>) {
    forall c :: c in choices ==> c.next.Some?
  }

  function ChoiceEdges(choices: seq<Choice>): (r: seq<Edge>)
    requires Complete(choices)
    ensures |r| == |choices| && forall i :: 0 <= i < |r| ==>
            r[i] == Edge(choices[i].next.value, Conditional, choices[i].cond)
  {
    seq(|choices|, i requires 0 <= i < |choices| => Edge(choices[i].next.value, Conditional, choices[i].cond))
  }

  function FallbackEdges(onError: Option<string>): seq<Edge> {
    if Truthy(onError) then [Edge(onError.value, Fallback, "")] else []
  }

  /** A choice without `Next` is a KeyError. */
  predicate Readable(s: State) {
    s.Choose? ==> Complete(s.choices)
  }

  function FragmentOf(s: State): Fragment
    requires !s.Ignored? && Readable(s)
  {
    match s
    case Task(next, onError) =>
      Fragment(false, DirectEdges(match next case None => [] case Some(ts) => ts) + FallbackEdges(onError))
    case Choose(choices, default) =>
      Fragment(true, ChoiceEdges(choices) + (match default case None => [] case Some(t) => [Edge(t, Direct, "")]))
    case Terminal => Fragment(false, [Edge(END_TOKEN, Direct, "")])
  }

  predicate AllReadable(schema: Schema) {
    forall n :: n in schema.states ==> Readable(schema.states[n])
  }

  function SigOf(schema: Schema): Sig
    requires AllReadable(schema)
  {
    Sig(match schema.startAt case None => "unknown_entry" case Some(s) => s,
        map n | n in schema.states && !schema.states[n].Ignored? :: FragmentOf(schema.states[n]))
  }

  /** `_validate_phase`: the entry is a node, and so is every internal target. */
  predicate ValidSig(sig: Sig) {
    && sig.entry in sig.nodes
    && forall n, e :: n in sig.nodes && e in sig.nodes[n].relations && !IsExternal(e.target) ==> e.target in sig.nodes
  }

  /** What `_build_fragment_sig` returns; None is one of its exceptions. */
  function Accepted(schema: Schema): Option<Sig> {
    if AllReadable(schema) && ValidSig(SigOf(schema)) then Some(SigOf(schema)) else None
  }

  method ValidatePhase(sig: Sig) returns (ok: bool)
    ensures ok == ValidSig(sig)
  {
    if sig.entry !in sig.nodes { return false; }
    var todo := sig.nodes.Keys;
    while todo != {}
      invariant todo <= sig.nodes.Keys
      invariant forall n, e :: n in sig.nodes && n !in todo && e in sig.nodes[n].relations && !IsExternal(e.target) ==>
                               e.target in sig.nodes
      decreases todo
    {
      var n :| n in todo;
      var edges := sig.nodes[n].relations;
      for i := 0 to |edges|
        invariant forall j :: 0 <= j < i && !IsExternal(edges[j].target) ==> edges[j].target in sig.nodes
      {
        if !IsExternal(edges[i].target) && edges[i].target !in sig.nodes {
          assert edges[i] in sig.nodes[n].relations;
          return false;
        }
      }
      todo := todo - {n};
    }
    return true;
  }

  method BuildFragment(s: State) returns (f: Option<Fragment>)
    requires !s.Ignored?
    ensures f == if Readable(s) then Some(FragmentOf(s)) else None
  {
    var relations: seq<Edge> := [];
    match s {
      case Task(next, onError) =>
        if next.Some? {
          for i := 0 to |next.value|
            invariant relations == DirectEdges(next.value)[..i]
          {
            relations := relations + [Edge(next.value[i], Direct, "")];
          }
        }
        var direct := match next case None => [] case Some(ts) => ts;
        assert relations == DirectEdges(direct) && relations + [] == relations;
        if Truthy(onError) { relations := relations + [Edge(onError.value, Fallback, "")]; }
        return Some(Fragment(false, relations));
      case Choose(choices, default) =>
        for i := 0 to |choices|
          invariant |relations| == i
          invariant forall j :: 0 <= j < i ==>
                      choices[j].next.Some? && relations[j] == Edge(choices[j].next.value, Conditional, choices[j].cond)
        {
          if choices[i].next.None? {
            assert choices[i] in choices;
            return None;
          }
          relations := relations + [Edge(choices[i].next.value, Conditional, choices[i].cond)];
        }
        assert Complete(choices) && relations == ChoiceEdges(choices);
        if default.Some? {
          relations := relations + [Edge(default.value, Direct, "")];
        } else {
          assert relations + [] == relations;
        }
        return Some(Fragment(true, relations));
      case Terminal =>
        return Some(Fragment(false, [Edge(END_TOKEN, Direct, "")]));
    }
  }

  /** `_build_fragment_sig`. */
  method BuildFragmentSig(schema: Schema) returns (r: Option<Sig>)
    ensures r == Accepted(schema)
  {
    var nodes: map<string, Fragment> := map[];
    var todo := schema.states.Keys;
    while todo != {}
      invariant todo <= schema.states.Keys
      invariant forall n :: n in schema.states && n !in todo ==> Readable(schema.states[n])
      invariant forall n :: n in nodes <==> n in schema.states && n !in todo && !schema.states[n].Ignored?
      invariant forall n :: n in nodes ==> nodes[n] == FragmentOf(schema.states[n])
      decreases todo
    {
      var n :| n in todo;
      if !schema.states[n].Ignored? {
        var f := BuildFragment(schema.states[n]);
        if f.None? { return None; }
        nodes := nodes[n := f.value];
      }
      todo := todo - {n};
    }
    var sig := Sig(match schema.startAt case None => "unknown_entry" case Some(s) => s, nodes);
    assert AllReadable(schema) && nodes == SigOf(schema).nodes;
    var ok := ValidatePhase(sig);
    return if ok then Some(sig) else None;
  }

  // --- Projection -------------------------------------------------------------------------------------------

  function Pick(edges: seq<Edge>, mode: EdgeMode): seq<Edge> {
    if edges == [] then []
    else (if edges[0].mode == mode then [edges[0]] else []) + Pick(edges[1..], mode)
  }

  function EdgeTargets(edges: seq<Edge>): seq<string> {
    seq(|edges|, i requires 0 <= i < |edges| => edges[i].target)
  }

  function RulesOf(edges: seq<Edge>): seq<Rule> {
    seq(|edges|, i requires 0 <= i < |edges| => Rule(edges[i].cond, Some(edges[i].target)))
  }

  function FirstTarget(edges: seq<Edge>): Option<string> {
    if edges == [] then None else Some(edges[0].target)
  }

  function NextOf(direct: seq<Edge>): Next {
    if direct == [] then One(END_TOKEN)
    else if |direct| == 1 then One(direct[0].target)
    else Many(EdgeTargets(direct))
  }

  function ProjectNode(f: Fragment): NodeSpec {
    var direct := Pick(f.relations, Direct);
    var fallback := FirstTarget(Pick(f.relations, Fallback));
    if f.isRouter
    then NodeSpec(true, NoNext, RulesOf(Pick(f.relations, Conditional)),
                  Some(if direct == [] then END_TOKEN else direct[0].target), fallback)
    else NodeSpec(false, NextOf(direct), [], None, fallback)
  }

  function Project(sig: Sig): Blob {
    Blob(sig.entry, map n | n in sig.nodes :: ProjectNode(sig.nodes[n]))
  }

  lemma {:induction false} PickSnoc(edges: seq<Edge>, e: Edge, mode: EdgeMode)
    ensures Pick(edges + [e], mode) == Pick(edges, mode) + (if e.mode == mode then [e] else [])
  {
    PickAppend(edges, [e], mode);
    PickUniform([e], e.mode, mode);
  }

  /** What the three comprehensions over the relations have collected from the first edges. */
  ghost predicate Collected(edges: seq<Edge>, rules: seq<Rule>, direct: seq<string>, fallbacks: seq<string>) {
    && rules == RulesOf(Pick(edges, Conditional)) && direct == EdgeTargets(Pick(edges, Direct))
    && fallbacks == EdgeTargets(Pick(edges, Fallback))
  }

  lemma {:induction false} CollectOne(edges: seq<Edge>, e: Edge, rules: seq<Rule>, direct: seq<string>,
                                      fallbacks: seq<string>)
    requires Collected(edges, rules, direct, fallbacks)
    ensures Collected(edges + [e], if e.mode == Conditional then rules + [Rule(e.cond, Some(e.target))] else rules,
                      if e.mode == Direct then direct + [e.target] else direct,
                      if e.mode == Fallback then fallbacks + [e.target] else fallbacks)
  {
    PickSnoc(edges, e, Conditional);
    PickSnoc(edges, e, Direct);
    PickSnoc(edges, e, Fallback);
  }

  method CollectEdge(ghost edges: seq<Edge>, e: Edge, rules0: seq<Rule>, direct0: seq<string>, fallbacks0: seq<string>)
    returns (rules: seq<Rule>, direct: seq<string>, fallbacks: seq<string>)
    requires Collected(edges, rules0, direct0, fallbacks0)
    ensures Collected(edges + [e], rules, direct, fallbacks)
  {
    rules, direct, fallbacks := rules0, direct0, fallbacks0;
    CollectOne(edges, e, rules, direct, fallbacks);
    match e.mode {
      case Conditional => rules := rules + [Rule(e.cond, Some(e.target))];
      case Direct => direct := direct + [e.target];
      case Fallback => fallbacks := fallbacks + [e.target];
    }
  }

  /** The conditional, direct and fallback edges, each in order. */
  method CollectEdges(edges: seq<Edge>) returns (rules: seq<Rule>, direct: seq<string>, fallbacks: seq<string>)
    ensures Collected(edges, rules, direct, fallbacks)
  {
    rules, direct, fallbacks := [], [], [];
    assert edges[..0] == [];
    for i := 0 to |edges|
      invariant Collected(edges[..i], rules, direct, fallbacks)
    {
      rules, direct, fallbacks := CollectEdge(edges[..i], edges[i], rules, direct, fallbacks);
      assert edges[..i + 1] == edges[..i] + [edges[i]];
    }
    assert edges[..|edges|] == edges;
  }

  /** The specification of one node, built from its relations. */
  method ProjectFragment(f: Fragment) returns (spec: NodeSpec)
    ensures spec == ProjectNode(f)
  {
    var rules, direct, fallbacks := CollectEdges(f.relations);
    var fallback := if fallbacks != [] then Some(fallbacks[0]) else None;
    if f.isRouter {
      return NodeSpec(true, NoNext, rules, Some(if direct != [] then direct[0] else END_TOKEN), fallback);
    }
    var next := if direct == [] then One(END_TOKEN) else if |direct| == 1 then One(direct[0]) else Many(direct);
    return NodeSpec(false, next, [], None, fallback);
  }

  /** `project_compact_blob`. */
  method ProjectCompactBlob(sig: Sig) returns (blob: Blob)
    ensures blob == Project(sig)
  {
    var specs: map<string, NodeSpec> := map[];
    var todo := sig.nodes.Keys;
    while todo != {}
      invariant todo <= sig.nodes.Keys && specs.Keys == sig.nodes.Keys - todo
      invariant forall n :: n in specs ==> specs[n] == ProjectNode(sig.nodes[n])
      decreases todo
    {
      var n :| n in todo;
      var spec := ProjectFragment(sig.nodes[n]);
      specs := specs[n := spec];
      todo := todo - {n};
    }
    assert specs == Project(sig).graph;
    return Blob(sig.entry, specs);
  }

  lemma {:induction false} PickAppend(a: seq<Edge>, b: seq<Edge>, mode: EdgeMode)
    ensures Pick(a + b, mode) == Pick(a, mode) + Pick(b, mode)
  {
    if a == [] {
      assert a + b == b;
    } else {
      PickAppend(a[1..], b, mode);
      assert (a + b)[1..] == a[1..] + b && (a + b)[0] == a[0];
      var head: seq<Edge> := if a[0].mode == mode then [a[0]] else [];
      assert head + (Pick(a[1..], mode) + Pick(b, mode)) == (head + Pick(a[1..], mode)) + Pick(b, mode);
    }
  }

  lemma {:induction false} PickUniform(a: seq<Edge>, all: EdgeMode, mode: EdgeMode)
    requires forall e :: e in a ==> e.mode == all
    ensures Pick(a, mode) == if all == mode then a else []
  {
    if a != [] {
      PickUniform(a[1..], all, mode);
      assert a == [a[0]] + a[1..];
    }
  }

  // --- What the analyser reads back ------------------------------------------------------------------------

  function TargetSet(edges: seq<Edge>): set<string> {
    set e | e in edges :: e.target
  }

  function Internal(targets: set<string>): set<string> {
    set t | t in targets && !IsExternal(t)
  }

  /** The edges of the signature that stay inside it. */
  function InternalEdges(sig: Sig): Graph {
    map n | n in sig.nodes :: Internal(TargetSet(sig.nodes[n].relations))
  }

  /** A fragment without a direct edge ends, and its blob entry names the END token. */
  predicate EndsImplicitly(f: Fragment) {
    Pick(f.relations, Direct) == []
  }

  /** The default of a router that is the empty string, which the analyser drops. */
  predicate DefaultDropped(f: Fragment) {
    && f.isRouter && Pick(f.relations, Direct) != [] && Pick(f.relations, Direct)[0].target == ""
    && "" !in TargetSet(Pick(f.relations, Conditional))
  }

  function Implicit(f: Fragment): set<string> {
    if EndsImplicitly(f) then {END_TOKEN} else {}
  }

  function Dropped(f: Fragment): set<string> {
    if DefaultDropped(f) then {""} else {}
  }

  function Members(ts: seq<string>): set<string> {
    set t | t in ts
  }

  lemma {:induction false} TaskTargets(s: State)
    requires s.Task?
    ensures var f := FragmentOf(s);
            && !DefaultDropped(f)
            && Members(Targets(ProjectNode(f))) == TargetSet(f.relations) + Implicit(f)
  {
    var ts := match s.next case None => [] case Some(x) => x;
    var d, fb := DirectEdges(ts), FallbackEdges(s.onError);
    PickAppend(d, fb, Direct);
    PickAppend(d, fb, Fallback);
    PickUniform(d, Direct, Direct);
    PickUniform(d, Direct, Fallback);
    PickUniform(fb, Fallback, Direct);
    PickUniform(fb, Fallback, Fallback);
    var f := FragmentOf(s);
    assert Pick(f.relations, Direct) == d && Pick(f.relations, Fallback) == fb;
    DirectTargets(ts);
    TargetSetAppend(d, fb);
    ActTargets(f, ts, s.onError);
  }

  lemma {:induction false} ActTargets(f: Fragment, ts: seq<string>, onError: Option<string>)
    requires !f.isRouter && Pick(f.relations, Direct) == DirectEdges(ts) &&
             Pick(f.relations, Fallback) == FallbackEdges(onError)
    requires TargetSet(f.relations) == Members(ts) + TargetSet(FallbackEdges(onError))
    ensures Members(Targets(ProjectNode(f))) == TargetSet(f.relations) + Implicit(f)
  {
    var direct := if ts == [] then [END_TOKEN] else ts;
    var fb := if Truthy(onError) then [onError.value] else [];
    NextTargets(ts);
    var targets := Targets(ProjectNode(f));
    assert targets == if fb != [] && fb[0] !in direct then direct + fb else direct;
    MembersAppend(direct, fb);
    assert Members(targets) == Members(direct) + Members(fb);
    assert Members(direct) == Members(ts) + Implicit(f);
    assert Members(fb) == TargetSet(FallbackEdges(onError)) by {
      if Truthy(onError) { assert FallbackEdges(onError)[0] in FallbackEdges(onError); }
    }
  }

  /** The `nx` entry lists the direct targets, or END when there are none. */
  lemma {:induction false} NextTargets(ts: seq<string>)
    ensures (match NextOf(DirectEdges(ts)) case NoNext => [] case One(t) => [t] case Many(all) => all)
         == if ts == [] then [END_TOKEN] else ts
  {
    assert EdgeTargets(DirectEdges(ts)) == ts;
  }

  lemma {:induction false} DirectTargets(ts: seq<string>)
    ensures TargetSet(DirectEdges(ts)) == Members(ts)
  {
    forall t | t in ts ensures t in TargetSet(DirectEdges(ts)) {
      var i :| 0 <= i < |ts| && ts[i] == t;
      assert DirectEdges(ts)[i] in DirectEdges(ts);
    }
  }

  lemma {:induction false} TargetSetAppend(a: seq<Edge>, b: seq<Edge>)
    ensures TargetSet(a + b) == TargetSet(a) + TargetSet(b)
  {
    forall t | t in TargetSet(a) ensures t in TargetSet(a + b) {
      var e :| e in a && e.target == t;
      assert e in a + b;
    }
    forall t | t in TargetSet(b) ensures t in TargetSet(a + b) {
      var e :| e in b && e.target == t;
      assert e in a + b;
    }
  }

  lemma {:induction false} RuleTargetsOfEdges(edges: seq<Edge>)
    ensures Members(RuleTargets(RulesOf(edges))) == TargetSet(edges)
  {
    var rules := RulesOf(edges);
    forall t ensures t in RuleTargets(rules) <==> t in TargetSet(edges) {
      RuleTargetsMembers(rules, t);
      if t in TargetSet(edges) {
        var e :| e in edges && e.target == t;
        var i :| 0 <= i < |edges| && edges[i] == e;
        assert rules[i].next == Some(t);
      }
      if i :| 0 <= i < |rules| && rules[i].next == Some(t) {
        assert edges[i] in edges;
      }
    }
  }

  lemma {:induction false} ChooseTargets(s: State)
    requires s.Choose? && Readable(s)
    ensures var f := FragmentOf(s);
            Members(Targets(ProjectNode(f)))
            == TargetSet(f.relations) + Implicit(f) - Dropped(f)
  {
    var c := ChoiceEdges(s.choices);
    var d: seq<Edge> := match s.default case None => [] case Some(t) => [Edge(t, Direct, "")];
    forall m: EdgeMode ensures Pick(c + d, m) == if m == Conditional then c else if m == Direct then d else [] {
      PickAppend(c, d, m);
      PickUniform(c, Conditional, m);
      PickUniform(d, Direct, m);
    }
    RuleTargetsOfEdges(c);
    TargetSetAppend(c, d);
    RouterTargets(FragmentOf(s), c, d);
  }

  lemma {:induction false} RouterTargets(f: Fragment, c: seq<Edge>, d: seq<Edge>)
    requires f.isRouter && Pick(f.relations, Conditional) == c && Pick(f.relations, Direct) == d && |d| <= 1
    requires Pick(f.relations, Fallback) == [] && TargetSet(f.relations) == TargetSet(c) + TargetSet(d)
    requires Members(RuleTargets(RulesOf(c))) == TargetSet(c)
    ensures Members(Targets(ProjectNode(f))) == TargetSet(f.relations) + Implicit(f) - Dropped(f)
  {
    var rules := RuleTargets(RulesOf(c));
    var tail := if d == [] then [END_TOKEN] else if d[0].target == "" then [] else [d[0].target];
    assert Targets(ProjectNode(f)) == rules + tail;
    MembersAppend(rules, tail);
    RouterTail(f, c, d, tail);
  }

  lemma {:induction false} RouterTail(f: Fragment, c: seq<Edge>, d: seq<Edge>, tail: seq<string>)
    requires f.isRouter && Pick(f.relations, Conditional) == c && Pick(f.relations, Direct) == d && |d| <= 1
    requires TargetSet(f.relations) == TargetSet(c) + TargetSet(d)
    requires tail == if d == [] then [END_TOKEN] else if d[0].target == "" then [] else [d[0].target]
    ensures TargetSet(c) + Members(tail) == TargetSet(f.relations) + Implicit(f) - Dropped(f)
  {
    if d == [] {
      assert TargetSet(d) == {} && Members(tail) == {END_TOKEN} && Dropped(f) == {};
    } else {
      assert TargetSet(d) == {d[0].target} && Implicit(f) == {};
    }
  }

  lemma {:induction false} MembersAppend(a: seq<string>, b: seq<string>)
    ensures Members(a + b) == Members(a) + Members(b)
  {
  }

  lemma {:induction false} NodeTargets(s: State)
    requires !s.Ignored? && Readable(s)
    ensures var f := FragmentOf(s);
            Members(Targets(ProjectNode(f)))
            == TargetSet(f.relations) + Implicit(f) - Dropped(f)
  {
    match s {
      case Task(_, _) => TaskTargets(s);
      case Choose(_, _) => ChooseTargets(s);
      case Terminal =>
        assert FragmentOf(s) == FragmentOf(Task(Some([END_TOKEN]), None));
        TaskTargets(Task(Some([END_TOKEN]), None));
    }
  }

  /** The blob of an accepted schema is closed: its entry and all its internal targets are nodes. */
  lemma {:induction false} BlobClosed(schema: Schema)
    requires Accepted(schema).Some?
    ensures var blob := Project(Accepted(schema).value);
            && blob.entry in blob.graph
            && forall n, t :: n in blob.graph && t in Targets(blob.graph[n]) && !IsExternal(t) ==> t in blob.graph
  {
    var sig := SigOf(schema);
    var blob := Project(sig);
    forall n, t | n in blob.graph && t in Targets(blob.graph[n]) && !IsExternal(t) ensures t in blob.graph {
      NodeTargets(schema.states[n]);
      assert t in Members(Targets(blob.graph[n]));
    }
  }

  /** No state of the blob can be mistaken for the target of an edge of `n` that leaves it, or dropped. */
  predicate Unambiguous(sig: Sig, n: string)
    requires n in sig.nodes
  {
    var f := sig.nodes[n];
    && (forall e :: e in f.relations && IsExternal(e.target) ==> e.target !in sig.nodes)
    && (EndsImplicitly(f) ==> END_TOKEN !in sig.nodes)
    && !DefaultDropped(f)
  }

  lemma {:induction false} ReadBackSets(targets: set<string>, nodes: set<string>, inside: set<string>,
                                        implicit: set<string>, dropped: set<string>)
    requires inside <= targets && inside <= nodes && dropped <= inside
    requires forall t :: t in implicit ==> t !in inside && t !in dropped
    ensures (targets + implicit - dropped) * nodes == inside
       <==> (targets - inside) * nodes == {} && implicit * nodes == {} && dropped == {}
  {
    var row := (targets + implicit - dropped) * nodes;
    if t :| t in (targets - inside) * nodes { assert t in row && t !in inside; }
    if t :| t in implicit * nodes { assert t in row && t !in inside; }
    if t :| t in dropped { assert t in inside && t !in row; }
  }

  lemma {:induction false} UnambiguousSets(sig: Sig, n: string)
    requires n in sig.nodes
    ensures var f := sig.nodes[n];
            Unambiguous(sig, n) <==>
              && (TargetSet(f.relations) - Internal(TargetSet(f.relations))) * sig.nodes.Keys == {}
              && Implicit(f) * sig.nodes.Keys == {} && Dropped(f) == {}
  {
    var f := sig.nodes[n];
    var stray := (TargetSet(f.relations) - Internal(TargetSet(f.relations))) * sig.nodes.Keys;
    StraySet(f.relations, sig.nodes.Keys);
    assert Implicit(f) * sig.nodes.Keys == {} <==> EndsImplicitly(f) ==> END_TOKEN !in sig.nodes by {
      if EndsImplicitly(f) && END_TOKEN in sig.nodes { assert END_TOKEN in Implicit(f) * sig.nodes.Keys; }
    }
    assert Dropped(f) == {} <==> !DefaultDropped(f) by {
      assert DefaultDropped(f) ==> "" in Dropped(f);
    }
  }

  lemma {:induction false} StraySet(edges: seq<Edge>, nodes: set<string>)
    ensures (TargetSet(edges) - Internal(TargetSet(edges))) * nodes == {}
       <==> forall e :: e in edges && IsExternal(e.target) ==> e.target !in nodes
  {
    var stray := (TargetSet(edges) - Internal(TargetSet(edges))) * nodes;
    if e :| e in edges && IsExternal(e.target) && e.target in nodes {
      assert e.target in stray;
    }
    if t :| t in stray {
      var e :| e in edges && e.target == t;
      assert IsExternal(e.target);
    }
  }

  lemma {:induction false} InternalFacts(f: Fragment)
    ensures forall t :: t in Implicit(f) ==> t !in Internal(TargetSet(f.relations)) && t !in Dropped(f)
    ensures Dropped(f) <= Internal(TargetSet(f.relations))
  {
    if DefaultDropped(f) {
      PickedIn(f.relations, Direct, Pick(f.relations, Direct)[0]);
      assert "" in TargetSet(f.relations);
    }
  }

  lemma {:induction false} RowReadBack(schema: Schema, n: string)
    requires Accepted(schema).Some? && n in SigOf(schema).nodes
    ensures Row(Project(SigOf(schema)), n) == InternalEdges(SigOf(schema))[n] <==> Unambiguous(SigOf(schema), n)
  {
    var sig := SigOf(schema);
    var f := sig.nodes[n];
    var targets := TargetSet(f.relations);
    NodeTargets(schema.states[n]);
    InternalFacts(f);
    UnambiguousSets(sig, n);
    ReadBackSets(targets, sig.nodes.Keys, Internal(targets), Implicit(f), Dropped(f));
    KeptMembers(Targets(ProjectNode(f)), sig.nodes.Keys);
  }

  lemma {:induction false} KeptMembers(targets: seq<string>, nodes: set<string>)
    ensures Kept(targets, nodes) == Members(targets) * nodes
  {
  }

  lemma {:induction false} PickedIn(edges: seq<Edge>, mode: EdgeMode, e: Edge)
    requires e in Pick(edges, mode)
    ensures e in edges
  {
    if e != edges[0] { PickedIn(edges[1..], mode, e); }
  }

  /**
   * The analyser reads back exactly the internal edges of the signature if and only if no state
   * is named like an external target that some edge (or an implicit end) uses, and no router has
   * the empty string as its default.
   */
  lemma {:induction false} ReadsBackIff(schema: Schema)
    requires Accepted(schema).Some?
    ensures var sig := SigOf(schema);
            Successors(Project(sig)) == InternalEdges(sig) <==> forall n :: n in sig.nodes ==> Unambiguous(sig, n)
  {
    var sig := SigOf(schema);
    var back, inside := Successors(Project(sig)), InternalEdges(sig);
    assert back.Keys == inside.Keys == sig.nodes.Keys;
    GraphsAgree(back, inside);
    forall n | n in sig.nodes ensures back[n] == inside[n] <==> Unambiguous(sig, n) {
      RowReadBack(schema, n);
    }
  }

  lemma {:induction false} GraphsAgree(a: Graph, b: Graph)
    requires a.Keys == b.Keys
    ensures a == b <==> forall n :: n in a ==> a[n] == b[n]
  {
  }

  /** State names that are non-empty and neither reserved tokens nor prefixed. */
  predicate PlainNames(schema: Schema) {
    forall n :: n in schema.states ==> n != "" && !IsExternal(n)
  }

  lemma {:induction false} PlainNamesReadBack(schema: Schema)
    requires Accepted(schema).Some? && PlainNames(schema)
    ensures Successors(Project(SigOf(schema))) == InternalEdges(SigOf(schema))
  {
    forall n | n in SigOf(schema).nodes ensures Unambiguous(SigOf(schema), n) {
      PlainUnambiguous(SigOf(schema), n);
    }
    ReadsBackIff(schema);
  }

  lemma {:induction false} PlainUnambiguous(sig: Sig, n: string)
    requires ValidSig(sig) && n in sig.nodes && (forall m :: m in sig.nodes ==> m != "" && !IsExternal(m))
    ensures Unambiguous(sig, n)
  {
    assert IsExternal(END_TOKEN) && !IsExternal("");
    if DefaultDropped(sig.nodes[n]) {
      PickedIn(sig.nodes[n].relations, Direct, Pick(sig.nodes[n].relations, Direct)[0]);
      assert false;
    }
  }

  /** A state named END: the schema is accepted, and finishing a task becomes an edge to that state. */
  lemma StateNamedEnd()
    ensures var schema := Schema(Some("a"), map["a" := Task(None, None), "END" := Task(Some(["a"]), None)]);
            && Accepted(schema).Some?
            && "END" in Row(Project(SigOf(schema)), "a")
            && InternalEdges(SigOf(schema))["a"] == {}
  {
    var schema := Schema(Some("a"), map["a" := Task(None, None), "END" := Task(Some(["a"]), None)]);
    var sig := SigOf(schema);
    assert sig.nodes["a"].relations == [] && sig.nodes["END"].relations == [Edge("a", Direct, "")];
    assert Accepted(schema).Some?;
    NodeTargets(schema.states["a"]);
    assert END_TOKEN in Members(Targets(Project(sig).graph["a"]));
  }
}
