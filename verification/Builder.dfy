/** pipeline/builder/builder.py: an element graph compiled into an indexed tree. */
module Builder {
  import opened Options
  import opened Walks

  datatype Type =
    | EmptyStartEvent | EmptyEndEvent | ServiceActivity | SubProcess
    | ParallelGateway | ExclusiveGateway | ConditionalParallelGateway | ConvergeGateway

  /** An element names its successors; a subprocess has a template or a graph of its own. */
  datatype Element = Element(id: Id, typ: Type, outgoing: seq<Id>, conditions: map<nat, Id>,
                             template: Option<Id>, nested: Option<Graph>)

  datatype Graph = Graph(start: Id, elements: map<Id, Element>)

  datatype Flow = Flow(source: Id, target: Id)

  datatype Node = Node(id: Id, typ: Type, incoming: seq<Id>, outgoing: seq<Id>, conditions: map<Id, Id>,
                       template: Option<Id>, pipeline: Option<Tree>)

  datatype Tree = Tree(id: Id, startEvent: Option<Node>, endEvent: Option<Node>,
                       activities: map<Id, Node>, gateways: map<Id, Node>, flows: map<Id, Flow>)

  predicate IsActivity(t: Type) {
    t.ServiceActivity? || t.SubProcess?
  }

  predicate IsEnd(e: Element) {
    e.typ.EmptyEndEvent?
  }

  predicate IsConditional(t: Type) {
    t.ExclusiveGateway? || t.ConditionalParallelGateway?
  }

  predicate IsGateway(t: Type) {
    IsConditional(t) || t.ParallelGateway? || t.ConvergeGateway?
  }

  /** One flow leaves these, and nothing else is grown for them. */
  predicate IsSingle(t: Type) {
    t.EmptyStartEvent? || IsActivity(t) || t.ConvergeGateway?
  }

  // ----- what the source demands of a graph -----

  predicate Arity(e: Element) {
    && (IsSingle(e.typ) ==> |e.outgoing| == 1)
    && (e.typ.EmptyEndEvent? ==> e.outgoing == [])
    && (IsConditional(e.typ) ==> forall i :: 0 <= i < |e.outgoing| ==> i in e.conditions)
  }

  predicate Linked(g: Graph, k: Id)
    requires k in g.elements
  {
    var e := g.elements[k];
    && e.id == k && Arity(e)
    && (e.typ.EmptyStartEvent? <==> k == g.start)
    && Elements(e.outgoing) <= g.elements.Keys - {g.start}
  }

  predicate WellFormed(g: Graph)
    decreases g
  {
    && g.start in g.elements
    && (forall k :: k in g.elements ==> Linked(g, k))
    && (forall k, l :: k in g.elements && l in g.elements && IsEnd(g.elements[k]) && IsEnd(g.elements[l]) ==> k == l)
    && (forall k :: k in g.elements ==> WellFormedElement(g.elements[k]))
  }

  predicate WellFormedElement(e: Element)
    decreases e
  {
    e.typ.SubProcess? && e.template.None? ==> e.nested.Some? && WellFormed(e.nested.value)
  }

  function GraphEdges(g: Graph): set<(Id, Id)> {
    set k, l | k in g.elements && l in g.elements[k].outgoing :: (k, l)
  }

  ghost predicate Reaches(g: Graph, k: Id) {
    exists w :: Walk(GraphEdges(g), w) && w[0] == g.start && w[|w| - 1] == k
  }

  // ----- what a tree must be -----

  function FlowsFrom(flows: map<Id, Flow>, k: Id): set<Id> {
    set f | f in flows && flows[f].source == k
  }

  function FlowsInto(flows: map<Id, Flow>, k: Id): set<Id> {
    set f | f in flows && flows[f].target == k
  }

  /** A list with each element of a set exactly once. */
  ghost predicate Lists(s: seq<Id>, ids: set<Id>) {
    Distinct(s) && Elements(s) == ids
  }

  /** In the order in which the flows were made. */
  predicate Ascending(s: seq<Id>) {
    forall i, j :: 0 <= i < j < |s| ==> s[i] < s[j]
  }

  /** The i-th outgoing flow of a node leads to the i-th successor of its element, under the i-th condition. */
  ghost predicate Targets(e: Element, node: Node, flows: map<Id, Flow>) {
    && |node.outgoing| == |e.outgoing|
    && (forall i :: 0 <= i < |e.outgoing| ==>
          node.outgoing[i] in flows && flows[node.outgoing[i]] == Flow(e.id, e.outgoing[i]))
    && Conditioned(e, node)
  }

  predicate Conditioned(e: Element, node: Node) {
    if !IsConditional(e.typ) then node.conditions == map[] else
      && node.conditions.Keys == Elements(node.outgoing) && |node.outgoing| == |e.outgoing|
      && forall i :: 0 <= i < |e.outgoing| ==>
           node.outgoing[i] in node.conditions && i in e.conditions
           && node.conditions[node.outgoing[i]] == e.conditions[i]
  }

  /** The node of an element carries its type and content; a nested graph is built in turn. */
  ghost predicate Matches(e: Element, node: Node)
    decreases e
  {
    && node.id == e.id && node.typ == e.typ && node.template == (if e.typ.SubProcess? then e.template else None)
    && if e.typ.SubProcess? && e.template.None? then
         e.nested.Some? && node.pipeline.Some? && node.pipeline.value.id == e.id
         && Built(e.nested.value, node.pipeline.value)
       else node.pipeline == None
  }

  /** Where the tree keeps the node of an element. */
  function NodeAt(tree: Tree, e: Element): Option<Node> {
    if e.typ.EmptyStartEvent? then tree.startEvent
    else if e.typ.EmptyEndEvent? then tree.endEvent
    else if IsActivity(e.typ) then if e.id in tree.activities then Some(tree.activities[e.id]) else None
    else if e.id in tree.gateways then Some(tree.gateways[e.id]) else None
  }

  function NodesOf(g: Graph, tree: Tree): map<Id, Node> {
    map k | k in g.elements && NodeAt(tree, g.elements[k]).Some? && NodeAt(tree, g.elements[k]).value.id == k ::
      NodeAt(tree, g.elements[k]).value
  }

  function ActivitiesOf(g: Graph, nodes: map<Id, Node>): map<Id, Node> {
    map k | k in nodes && k in g.elements && IsActivity(g.elements[k].typ) :: nodes[k]
  }

  function GatewaysOf(g: Graph, nodes: map<Id, Node>): map<Id, Node> {
    map k | k in nodes && k in g.elements && IsGateway(g.elements[k].typ) :: nodes[k]
  }

  /** Each node is in the table of its type, and the tables hold nothing else. */
  ghost predicate Tables(g: Graph, nodes: map<Id, Node>, tree: Tree) {
    && nodes.Keys <= g.elements.Keys
    && tree.activities == ActivitiesOf(g, nodes)
    && tree.gateways == GatewaysOf(g, nodes)
    && tree.startEvent == (if g.start in nodes then Some(nodes[g.start]) else None)
    && EndTable(g, nodes, tree.endEvent)
  }

  ghost predicate EndTable(g: Graph, nodes: map<Id, Node>, end: Option<Node>) {
    && (forall k :: k in nodes && k in g.elements && IsEnd(g.elements[k]) ==> end == Some(nodes[k]))
    && (end.Some? ==> end.value.id in nodes && end.value.id in g.elements && IsEnd(g.elements[end.value.id]))
  }

  /** Nodes and flows agree: every flow is once among its source's outgoing and once among its target's incoming,
      and those lists hold nothing else. */
  ghost predicate Agree(g: Graph, nodes: map<Id, Node>, flows: map<Id, Flow>) {
    && (forall f :: f in flows ==> flows[f].source in nodes && flows[f].target in nodes)
    && (forall k :: k in nodes && k in g.elements ==>
          && Targets(g.elements[k], nodes[k], flows)
          && Lists(nodes[k].outgoing, FlowsFrom(flows, k))
          && Lists(nodes[k].incoming, FlowsInto(flows, k)) && Ascending(nodes[k].incoming))
  }

  /** The tree is a compilation of the graph. */
  ghost predicate Built(g: Graph, tree: Tree)
    decreases g
  {
    var nodes := NodesOf(g, tree);
    && Tables(g, nodes, tree)
    && (forall k :: k in nodes <==> Reaches(g, k))
    && Agree(g, nodes, tree.flows)
    && (forall k :: k in nodes && k in g.elements ==> Matches(g.elements[k], nodes[k]))
  }

  // ----- conservation -----

  ghost function OutDegrees(g: Graph, ks: set<Id>): nat
    requires ks <= g.elements.Keys
  {
    if ks == {} then 0 else
    var k := Any(ks);
    |g.elements[k].outgoing| + OutDegrees(g, ks - {k})
  }

  function FlowsFromAny(flows: map<Id, Flow>, ks: set<Id>): set<Id> {
    set f | f in flows && flows[f].source in ks
  }

  lemma {:induction false} FlowsAreOutDegrees(g: Graph, nodes: map<Id, Node>, flows: map<Id, Flow>, ks: set<Id>)
    requires Agree(g, nodes, flows) && ks <= nodes.Keys && ks <= g.elements.Keys
    ensures |FlowsFromAny(flows, ks)| == OutDegrees(g, ks)
    decreases |ks|
  {
    if ks == {} {
      assert FlowsFromAny(flows, ks) == {};
    } else {
      var k := Any(ks);
      FlowsAreOutDegrees(g, nodes, flows, ks - {k});
      DistinctCardinality(nodes[k].outgoing);
      assert Targets(g.elements[k], nodes[k], flows);
      assert FlowsFromAny(flows, ks) == FlowsFromAny(flows, ks - {k}) + FlowsFrom(flows, k);
      assert FlowsFromAny(flows, ks - {k}) !! FlowsFrom(flows, k);
    }
  }

  lemma AllFlows(nodes: map<Id, Node>, flows: map<Id, Flow>)
    requires forall f :: f in flows ==> flows[f].source in nodes
    ensures FlowsFromAny(flows, nodes.Keys) == flows.Keys
  {
    forall f | f in flows ensures f in FlowsFromAny(flows, nodes.Keys) {
      assert flows[f].source in nodes.Keys;
    }
  }

  ghost function ReachedElements(g: Graph): set<Id> {
    set k | k in g.elements && Reaches(g, k)
  }

  /** As many flows as edges leave the elements that the start reaches. */
  lemma FlowsAreConserved(g: Graph, tree: Tree)
    requires Built(g, tree)
    ensures |tree.flows.Keys| == OutDegrees(g, ReachedElements(g))
  {
    var nodes := NodesOf(g, tree);
    FlowsAreOutDegrees(g, nodes, tree.flows, nodes.Keys);
    AllFlows(nodes, tree.flows);
    assert nodes.Keys == ReachedElements(g);
  }

  // ----- the flow ids of all levels -----

  function AllFlowIds(tree: Tree): set<Id>
    decreases tree, 1
  {
    tree.flows.Keys + SubFlowIds(tree)
  }

  function SubFlowIds(tree: Tree): set<Id>
    decreases tree, 0
  {
    set k, f | k in tree.activities && f in NodeFlowIds(tree.activities[k]) :: f
  }

  function NodeFlowIds(node: Node): set<Id>
    decreases node, 0
  {
    if node.pipeline.Some? then AllFlowIds(node.pipeline.value) else {}
  }

  /** The flows of all levels, one by one. */
  ghost function FlowCount(tree: Tree): nat
    decreases tree, |tree.activities.Keys| + 1
  {
    |tree.flows| + SubCount(tree, tree.activities.Keys)
  }

  ghost function SubCount(tree: Tree, ks: set<Id>): nat
    requires ks <= tree.activities.Keys
    decreases tree, |ks|
  {
    if ks == {} then 0 else
    var k := Any(ks);
    NodeCount(tree.activities[k]) + SubCount(tree, ks - {k})
  }

  ghost function NodeCount(node: Node): nat
    decreases node, 0
  {
    if node.pipeline.Some? then FlowCount(node.pipeline.value) else 0
  }

  /** The flows of all levels have the ids from n on, each its own. */
  ghost predicate NumbersFlows(tree: Tree, n: nat, n': nat) {
    n <= n' && AllFlowIds(tree) == Interval(n, n') && FlowCount(tree) == n' - n
  }

  /** There are as many ids as flows: none occurs twice, at any depth. */
  lemma FlowIdsAreFresh(tree: Tree, n: nat, n': nat)
    requires NumbersFlows(tree, n, n')
    ensures |AllFlowIds(tree)| == FlowCount(tree)
  {
    IntervalSize(n, n');
  }

  lemma {:induction false} SubCountSplits(tree: Tree, ks: set<Id>, k: Id)
    requires ks <= tree.activities.Keys && k in ks
    ensures SubCount(tree, ks) == NodeCount(tree.activities[k]) + SubCount(tree, ks - {k})
    decreases |ks|
  {
    var j := Any(ks);
    if j != k {
      SubCountSplits(tree, ks - {j}, k);
      SubCountSplits(tree, ks - {k}, j);
      assert ks - {j} - {k} == ks - {k} - {j};
    }
  }

  lemma {:induction false} SubCountSame(tree: Tree, tree': Tree, ks: set<Id>)
    requires ks <= tree.activities.Keys && ks <= tree'.activities.Keys
    requires forall k :: k in ks ==> tree.activities[k].pipeline == tree'.activities[k].pipeline
    ensures SubCount(tree, ks) == SubCount(tree', ks)
    decreases |ks|
  {
    if ks != {} {
      SubCountSame(tree, tree', ks - {Any(ks)});
    }
  }

  /** One more activity. */
  lemma SubAdded(tree: Tree, tree': Tree, k: Id, node: Node)
    requires k !in tree.activities && tree'.activities == tree.activities[k := node]
    ensures SubFlowIds(tree') == SubFlowIds(tree) + NodeFlowIds(node)
    ensures SubCount(tree', tree'.activities.Keys) == SubCount(tree, tree.activities.Keys) + NodeCount(node)
  {
    SubIdsAdded(tree, tree', k, node);
    var ks := tree.activities.Keys;
    assert tree'.activities.Keys == ks + {k} && ks + {k} - {k} == ks;
    SubCountSplits(tree', ks + {k}, k);
    SubCountSame(tree, tree', ks);
  }

  lemma SubIdsAdded(tree: Tree, tree': Tree, k: Id, node: Node)
    requires k !in tree.activities && tree'.activities == tree.activities[k := node]
    ensures SubFlowIds(tree') == SubFlowIds(tree) + NodeFlowIds(node)
  {
    forall f ensures f in SubFlowIds(tree') <==> f in SubFlowIds(tree) || f in NodeFlowIds(node) {
      if f in NodeFlowIds(node) {
        assert f in NodeFlowIds(tree'.activities[k]);
      }
      if f in SubFlowIds(tree) {
        var j :| j in tree.activities && f in NodeFlowIds(tree.activities[j]);
        assert f in NodeFlowIds(tree'.activities[j]);
      }
      if f in SubFlowIds(tree') {
        var j :| j in tree'.activities && f in NodeFlowIds(tree'.activities[j]);
        assert j == k || tree'.activities[j] == tree.activities[j];
      }
    }
  }

  /** The same subprocesses. */
  lemma SubSame(tree: Tree, tree': Tree)
    requires tree'.activities.Keys == tree.activities.Keys
    requires forall k :: k in tree.activities ==> tree'.activities[k].pipeline == tree.activities[k].pipeline
    ensures SubFlowIds(tree') == SubFlowIds(tree)
    ensures SubCount(tree', tree'.activities.Keys) == SubCount(tree, tree.activities.Keys)
  {
    SubCountSame(tree, tree', tree.activities.Keys);
    forall k | k in tree.activities ensures NodeFlowIds(tree'.activities[k]) == NodeFlowIds(tree.activities[k]) {}
  }

  // ----- the loop -----

  type Incoming = map<Id, seq<Id>>

  /** The incoming flows recorded for an element so far. */
  function In(incoming: Incoming, k: Id): seq<Id> {
    if k in incoming then incoming[k] else []
  }

  ghost predicate RecordsIncoming(flows: map<Id, Flow>, incoming: Incoming) {
    forall k :: Records(flows, incoming, k)
  }

  ghost predicate Records(flows: map<Id, Flow>, incoming: Incoming, k: Id) {
    && Lists(In(incoming, k), FlowsInto(flows, k)) && Ascending(In(incoming, k))
    && (k in incoming <==> FlowsInto(flows, k) != {})
  }

  /** Each node has its outgoing flows; unless it is queued again, it has its incoming flows as recorded. */
  ghost predicate NodesAgree(g: Graph, nodes: map<Id, Node>, flows: map<Id, Flow>, incoming: Incoming, queue: seq<Id>) {
    forall k :: k in nodes ==>
      && k in g.elements && Matches(g.elements[k], nodes[k])
      && Targets(g.elements[k], nodes[k], flows)
      && Lists(nodes[k].outgoing, FlowsFrom(flows, k))
      && (k !in queue ==> nodes[k].incoming == In(incoming, k))
  }

  ghost predicate FlowsKnown(g: Graph, nodes: map<Id, Node>, flows: map<Id, Flow>, n: nat) {
    forall f :: f in flows ==> f < n && flows[f].source in nodes
  }

  /** What is queued or done is reached; what is done leads to what is queued or done. */
  ghost predicate Frontier(g: Graph, nodes: map<Id, Node>, queue: seq<Id>) {
    var seen := nodes.Keys + Elements(queue);
    && g.start in seen
    && (forall k :: k in seen ==> k in g.elements && Reaches(g, k))
    && (forall k :: k in nodes && k in g.elements ==> Elements(g.elements[k].outgoing) <= seen)
  }

  /** The lookup of incoming flows never misses: only the start has none, and it is queued only once. */
  ghost predicate QueueKnown(g: Graph, nodes: map<Id, Node>, incoming: Incoming, queue: seq<Id>) {
    && (forall k :: k in queue ==> k == g.start || k in incoming)
    && (g.start in queue ==> queue == [g.start] && g.start !in nodes)
  }

  ghost predicate Sound(g: Graph, nodes: map<Id, Node>, flows: map<Id, Flow>, incoming: Incoming, queue: seq<Id>,
                        n: nat)
  {
    && RecordsIncoming(flows, incoming)
    && NodesAgree(g, nodes, flows, incoming, queue)
    && FlowsKnown(g, nodes, flows, n)
    && Frontier(g, nodes, queue)
    && QueueKnown(g, nodes, incoming, queue)
  }

  lemma SoundStart(g: Graph, n: nat)
    requires WellFormed(g)
    ensures Sound(g, map[], map[], map[], [g.start], n)
  {}

  lemma SoundEnd(g: Graph, nodes: map<Id, Node>, flows: map<Id, Flow>, incoming: Incoming, n: nat, tree: Tree)
    requires WellFormed(g) && Sound(g, nodes, flows, incoming, [], n)
    requires Tables(g, nodes, tree) && tree.flows == flows
    ensures Built(g, tree)
  {
    assert Elements<Id>([]) == {};
    NodesOfTables(g, nodes, tree);
    TargetsAreNodes(g, nodes, flows, incoming, n);
    forall k | k in nodes && k in g.elements
      ensures Lists(nodes[k].incoming, FlowsInto(flows, k)) && Ascending(nodes[k].incoming)
    {
      assert Records(flows, incoming, k);
    }
    AllReached(g, nodes);
  }

  lemma NodesOfTables(g: Graph, nodes: map<Id, Node>, tree: Tree)
    requires WellFormed(g) && Tables(g, nodes, tree) && forall k :: k in nodes ==> nodes[k].id == k
    ensures NodesOf(g, tree) == nodes
  {
    forall k | k in g.elements
      ensures k in nodes <==> NodeAt(tree, g.elements[k]).Some? && NodeAt(tree, g.elements[k]).value.id == k
      ensures k in nodes ==> NodeAt(tree, g.elements[k]).value == nodes[k]
    {
      assert Linked(g, k);
    }
  }

  lemma TargetsAreNodes(g: Graph, nodes: map<Id, Node>, flows: map<Id, Flow>, incoming: Incoming, n: nat)
    requires Sound(g, nodes, flows, incoming, [], n)
    ensures forall f :: f in flows ==> flows[f].source in nodes && flows[f].target in nodes
  {
    assert Elements<Id>([]) == {};
    forall f | f in flows ensures flows[f].source in nodes && flows[f].target in nodes {
      var k := flows[f].source;
      assert f in FlowsFrom(flows, k);
      assert f in Elements(nodes[k].outgoing);
      var i :| 0 <= i < |nodes[k].outgoing| && nodes[k].outgoing[i] == f;
      assert Targets(g.elements[k], nodes[k], flows);
      assert g.elements[k].outgoing[i] in Elements(g.elements[k].outgoing);
    }
  }

  lemma AllReached(g: Graph, nodes: map<Id, Node>)
    requires Frontier(g, nodes, [])
    ensures forall k :: k in nodes <==> Reaches(g, k)
  {
    assert Elements<Id>([]) == {};
    forall k | Reaches(g, k) ensures k in nodes {
      var w :| Walk(GraphEdges(g), w) && w[0] == g.start && w[|w| - 1] == k;
      forall e | e in GraphEdges(g) && e.0 in nodes.Keys ensures e.1 in nodes.Keys {
        assert e.1 in Elements(g.elements[e.0].outgoing);
      }
      WalkStays(GraphEdges(g), nodes.Keys, w);
    }
  }

  // ----- growing the flows of one element -----

  /** The ids n, n + 1, ... */
  function Fresh(n: nat, count: nat): seq<Id> {
    seq(count, i requires 0 <= i < count => n + i)
  }

  function GrownFlows(flows: map<Id, Flow>, k: Id, n: nat, targets: seq<Id>): map<Id, Flow> {
    if targets == [] then flows else
    var last := |targets| - 1;
    GrownFlows(flows, k, n, targets[..last])[n + last := Flow(k, targets[last])]
  }

  function GrownIncoming(incoming: Incoming, n: nat, targets: seq<Id>): Incoming {
    if targets == [] then incoming else
    var last := |targets| - 1;
    var before := GrownIncoming(incoming, n, targets[..last]);
    before[targets[last] := In(before, targets[last]) + [n + last]]
  }

  lemma {:induction false} GrownFlowsAre(flows: map<Id, Flow>, k: Id, n: nat, targets: seq<Id>)
    requires forall f :: f in flows ==> f < n
    ensures var grown := GrownFlows(flows, k, n, targets);
            && (forall f :: f in grown <==> f in flows || n <= f < n + |targets|)
            && (forall f :: f in flows ==> grown[f] == flows[f])
            && (forall i :: 0 <= i < |targets| ==> n + i in grown && grown[n + i] == Flow(k, targets[i]))
  {
    if targets != [] {
      GrownFlowsAre(flows, k, n, targets[..|targets| - 1]);
    }
  }

  lemma LastIsLater(flows: map<Id, Flow>, s: seq<Id>, u: Id, f: Id)
    requires Elements(s) == FlowsInto(flows, u) && Ascending(s) && forall g :: g in flows ==> g < f
    ensures Ascending(s + [f])
  {
    forall i | 0 <= i < |s| ensures s[i] < f {
      assert s[i] in Elements(s);
    }
  }

  lemma RecordsOneMore(flows: map<Id, Flow>, incoming: Incoming, f: Id, k: Id, t: Id)
    requires RecordsIncoming(flows, incoming) && forall g :: g in flows ==> g < f
    ensures RecordsIncoming(flows[f := Flow(k, t)], incoming[t := In(incoming, t) + [f]])
  {
    var flows', incoming' := flows[f := Flow(k, t)], incoming[t := In(incoming, t) + [f]];
    forall u ensures Records(flows', incoming', u) {
      assert Records(flows, incoming, u);
      if u == t {
        LastIsLater(flows, In(incoming, u), u, f);
        assert FlowsInto(flows', u) == FlowsInto(flows, u) + {f};
        DistinctSnoc(In(incoming, u), f);
        ElementsSnoc(In(incoming, u), f);
      } else {
        assert FlowsInto(flows', u) == FlowsInto(flows, u);
      }
    }
  }

  lemma {:induction false} GrownRecords(flows: map<Id, Flow>, incoming: Incoming, k: Id, n: nat, targets: seq<Id>)
    requires RecordsIncoming(flows, incoming) && forall f :: f in flows ==> f < n
    ensures RecordsIncoming(GrownFlows(flows, k, n, targets), GrownIncoming(incoming, n, targets))
  {
    if targets != [] {
      var rest := targets[..|targets| - 1];
      GrownRecords(flows, incoming, k, n, rest);
      GrownFlowsAre(flows, k, n, rest);
      RecordsOneMore(GrownFlows(flows, k, n, rest), GrownIncoming(incoming, n, rest), n + |rest|, k, targets[|rest|]);
    }
  }

  lemma {:induction false} OthersUnchanged(incoming: Incoming, n: nat, targets: seq<Id>, k: Id)
    requires k !in targets
    ensures In(GrownIncoming(incoming, n, targets), k) == In(incoming, k)
  {
    if targets != [] {
      OthersUnchanged(incoming, n, targets[..|targets| - 1], k);
    }
  }

  /** The flows of the new element are the fresh ones; no other element's flows change. */
  lemma GrownFrom(flows: map<Id, Flow>, k: Id, n: nat, targets: seq<Id>, l: Id)
    requires forall f :: f in flows ==> f < n && flows[f].source != k
    ensures FlowsFrom(GrownFlows(flows, k, n, targets), l)
         == if l == k then Elements(Fresh(n, |targets|)) else FlowsFrom(flows, l)
  {
    GrownFlowsAre(flows, k, n, targets);
    var grown, ids := GrownFlows(flows, k, n, targets), Fresh(n, |targets|);
    forall f | f in grown && f !in flows ensures f in Elements(ids) && grown[f].source == k {
      assert grown[n + (f - n)] == Flow(k, targets[f - n]);
      assert ids[f - n] == f;
    }
  }

  lemma FreshDistinct(n: nat, count: nat)
    ensures Distinct(Fresh(n, count))
  {}

  // ----- one turn on a new element -----

  /** The node as it is grown: its incoming flows so far, and fresh outgoing ones. */
  ghost predicate Grown(g: Graph, k: Id, node: Node, incoming: Incoming, n: nat)
    requires k in g.elements
  {
    var e := g.elements[k];
    && Matches(e, node) && Conditioned(e, node)
    && node.outgoing == Fresh(n, |e.outgoing|) && node.incoming == In(incoming, k)
  }

  lemma OldNodeAgrees(g: Graph, e: Element, node: Node, flows: map<Id, Flow>, k: Id, n: nat, targets: seq<Id>)
    requires Targets(e, node, flows) && forall f :: f in flows ==> f < n
    ensures Targets(e, node, GrownFlows(flows, k, n, targets))
  {}

  lemma NewNodeAgrees(g: Graph, k: Id, node: Node, flows: map<Id, Flow>, incoming: Incoming, n: nat)
    requires k in g.elements && Linked(g, k) && Grown(g, k, node, incoming, n) && forall f :: f in flows ==> f < n
    ensures Targets(g.elements[k], node, GrownFlows(flows, k, n, g.elements[k].outgoing))
  {
    GrownFlowsAre(flows, k, n, g.elements[k].outgoing);
  }

  lemma GrowNodesAgree(g: Graph, nodes: map<Id, Node>, flows: map<Id, Flow>, incoming: Incoming, queue: seq<Id>,
                       n: nat, node: Node)
    requires queue != [] && queue[0] !in nodes && queue[0] in g.elements && Linked(g, queue[0])
    requires NodesAgree(g, nodes, flows, incoming, queue) && FlowsKnown(g, nodes, flows, n)
    requires Grown(g, queue[0], node, incoming, n)
    ensures var k, targets := queue[0], g.elements[queue[0]].outgoing;
            NodesAgree(g, nodes[k := node], GrownFlows(flows, k, n, targets), GrownIncoming(incoming, n, targets),
                       queue[1..] + targets)
  {
    var k, targets := queue[0], g.elements[queue[0]].outgoing;
    forall l | l in nodes[k := node]
      ensures l in g.elements && Matches(g.elements[l], nodes[k := node][l])
      ensures Targets(g.elements[l], nodes[k := node][l], GrownFlows(flows, k, n, targets))
      ensures Lists(nodes[k := node][l].outgoing, FlowsFrom(GrownFlows(flows, k, n, targets), l))
      ensures l !in queue[1..] + targets ==> nodes[k := node][l].incoming == In(GrownIncoming(incoming, n, targets), l)
    {
      GrownFrom(flows, k, n, targets, l);
      if l !in targets {
        OthersUnchanged(incoming, n, targets, l);
      }
      if l == k {
        NewNodeAgrees(g, k, node, flows, incoming, n);
        FreshDistinct(n, |targets|);
      } else {
        OldNodeAgrees(g, g.elements[l], nodes[l], flows, k, n, targets);
        NotQueued(queue, targets, l);
      }
    }
  }

  lemma NotQueued(queue: seq<Id>, targets: seq<Id>, l: Id)
    requires queue != [] && l != queue[0]
    ensures l !in queue[1..] + targets ==> l !in queue && l !in targets
  {}

  lemma ReachesStep(g: Graph, k: Id, l: Id)
    requires k in g.elements && Reaches(g, k) && l in g.elements[k].outgoing
    ensures Reaches(g, l)
  {
    var w :| Walk(GraphEdges(g), w) && w[0] == g.start && w[|w| - 1] == k;
    WalkAppend(GraphEdges(g), w, l);
    assert (w + [l])[|w + [l]| - 1] == l;
  }

  /** What had an incoming flow still has one, and so has every target. */
  lemma GrownKnows(flows: map<Id, Flow>, incoming: Incoming, k: Id, n: nat, targets: seq<Id>, t: Id)
    requires RecordsIncoming(flows, incoming) && forall f :: f in flows ==> f < n
    requires t in incoming || t in targets
    ensures t in GrownIncoming(incoming, n, targets)
  {}

  lemma GrowFrontier(g: Graph, nodes: map<Id, Node>, queue: seq<Id>, node: Node)
    requires queue != [] && queue[0] in g.elements && Linked(g, queue[0]) && Frontier(g, nodes, queue)
    ensures Frontier(g, nodes[queue[0] := node], queue[1..] + g.elements[queue[0]].outgoing)
  {
    var k, targets := queue[0], g.elements[queue[0]].outgoing;
    SeenGrows(nodes, queue, targets, node);
    assert k in nodes.Keys + Elements(queue);
    forall t | t in Elements(targets) ensures t in g.elements && Reaches(g, t) {
      ReachesStep(g, k, t);
    }
  }

  lemma SeenGrows(nodes: map<Id, Node>, queue: seq<Id>, targets: seq<Id>, node: Node)
    requires queue != []
    ensures nodes[queue[0] := node].Keys + Elements(queue[1..] + targets)
        == nodes.Keys + Elements(queue) + Elements(targets)
  {}

  lemma GrowQueueKnown(g: Graph, nodes: map<Id, Node>, flows: map<Id, Flow>, incoming: Incoming, queue: seq<Id>,
                       n: nat, node: Node)
    requires queue != [] && queue[0] in g.elements && Linked(g, queue[0]) && QueueKnown(g, nodes, incoming, queue)
    requires RecordsIncoming(flows, incoming) && FlowsKnown(g, nodes, flows, n)
    ensures var k, targets := queue[0], g.elements[queue[0]].outgoing;
            QueueKnown(g, nodes[k := node], GrownIncoming(incoming, n, targets), queue[1..] + targets)
  {
    var k, targets := queue[0], g.elements[queue[0]].outgoing;
    assert queue == [k] + queue[1..];
    forall t | t in queue[1..] + targets ensures t != g.start && t in GrownIncoming(incoming, n, targets) {
      if t in targets {
        assert t in Elements(targets);
      } else {
        assert t in queue;
      }
      GrownKnows(flows, incoming, k, n, targets, t);
    }
  }

  lemma GrowSound(g: Graph, nodes: map<Id, Node>, flows: map<Id, Flow>, incoming: Incoming, queue: seq<Id>, n: nat,
                  node: Node, n': nat)
    requires WellFormed(g) && Sound(g, nodes, flows, incoming, queue, n)
    requires queue != [] && queue[0] !in nodes && queue[0] in g.elements && Grown(g, queue[0], node, incoming, n)
    requires n' >= n + |g.elements[queue[0]].outgoing|
    ensures var k, targets := queue[0], g.elements[queue[0]].outgoing;
            Sound(g, nodes[k := node], GrownFlows(flows, k, n, targets), GrownIncoming(incoming, n, targets),
                  queue[1..] + targets, n')
  {
    assert Linked(g, queue[0]);
    var k, targets := queue[0], g.elements[queue[0]].outgoing;
    GrownRecords(flows, incoming, k, n, targets);
    GrowNodesAgree(g, nodes, flows, incoming, queue, n, node);
    GrowFrontier(g, nodes, queue, node);
    GrowQueueKnown(g, nodes, flows, incoming, queue, n, node);
    GrownKnown(g, nodes, flows, k, n, targets, node, n');
  }

  lemma GrownKnown(g: Graph, nodes: map<Id, Node>, flows: map<Id, Flow>, k: Id, n: nat, targets: seq<Id>, node: Node,
                   n': nat)
    requires FlowsKnown(g, nodes, flows, n) && n' >= n + |targets|
    ensures FlowsKnown(g, nodes[k := node], GrownFlows(flows, k, n, targets), n')
  {}

  /** One tree has the flows of another and, at some level, those with the ids from n on. */
  ghost predicate Adds(tree: Tree, tree': Tree, n: nat, n': nat) {
    n <= n' && AllFlowIds(tree') == AllFlowIds(tree) + Interval(n, n') && FlowCount(tree') == FlowCount(tree) + (n' - n)
  }

  ghost predicate NumbersNode(node: Node, n: nat, n': nat) {
    n <= n' && NodeFlowIds(node) == Interval(n, n') && NodeCount(node) == n' - n
  }

  /** In a turn come the element's own flows first, then those of its nested graph. */
  ghost predicate Turned(tree: Tree, tree': Tree, t: Type, node: Node, targets: seq<Id>, n: nat, n': nat) {
    && (forall f :: f in tree.flows ==> f < n)
    && tree' == PutNode(tree, t, node).(flows := GrownFlows(tree.flows, node.id, n, targets))
    && (if IsActivity(t) then node.id !in tree.activities else node.pipeline == None)
    && NumbersNode(node, n + |targets|, n')
  }

  lemma GrowAdds(tree: Tree, tree': Tree, t: Type, node: Node, targets: seq<Id>, n: nat, n': nat)
    requires Turned(tree, tree', t, node, targets, n, n')
    ensures Adds(tree, tree', n, n')
  {
    SubGrows(tree, tree', t, node, targets, n, n');
    GrownCount(tree.flows, node.id, n, targets);
    assert tree'.flows == GrownFlows(tree.flows, node.id, n, targets);
    assert FlowCount(tree') == FlowCount(tree) + (n' - n);
    GrowAddsIds(tree, tree', t, node, targets, n, n');
  }

  lemma GrowAddsIds(tree: Tree, tree': Tree, t: Type, node: Node, targets: seq<Id>, n: nat, n': nat)
    requires Turned(tree, tree', t, node, targets, n, n')
    ensures AllFlowIds(tree') == AllFlowIds(tree) + Interval(n, n')
  {
    SubGrows(tree, tree', t, node, targets, n, n');
    GrownKeys(tree.flows, node.id, n, targets);
    GrowIds(tree, tree', Interval(n, n + |targets|), NodeFlowIds(node));
    IntervalsJoin(n, n + |targets|, n');
  }

  lemma GrowIds(tree: Tree, tree': Tree, own: set<Id>, nested: set<Id>)
    requires tree'.flows.Keys == tree.flows.Keys + own && SubFlowIds(tree') == SubFlowIds(tree) + nested
    ensures AllFlowIds(tree') == AllFlowIds(tree) + (own + nested)
  {
    UnionsRegroup(tree.flows.Keys, own, SubFlowIds(tree), nested);
  }

  lemma SubGrows(tree: Tree, tree': Tree, t: Type, node: Node, targets: seq<Id>, n: nat, n': nat)
    requires Turned(tree, tree', t, node, targets, n, n')
    ensures SubFlowIds(tree') == SubFlowIds(tree) + NodeFlowIds(node)
    ensures SubCount(tree', tree'.activities.Keys) == SubCount(tree, tree.activities.Keys) + NodeCount(node)
  {
    if IsActivity(t) {
      SubAdded(tree, tree', node.id, node);
    } else {
      SubSame(tree, tree');
    }
  }

  lemma UnionsRegroup(a: set<Id>, b: set<Id>, c: set<Id>, d: set<Id>)
    ensures (a + b) + (c + d) == (a + c) + (b + d)
  {}

  lemma GrownKeys(flows: map<Id, Flow>, k: Id, n: nat, targets: seq<Id>)
    requires forall f :: f in flows ==> f < n
    ensures GrownFlows(flows, k, n, targets).Keys == flows.Keys + Interval(n, n + |targets|)
  {
    GrownFlowsAre(flows, k, n, targets);
    forall f ensures f in GrownFlows(flows, k, n, targets).Keys <==> f in flows.Keys + Interval(n, n + |targets|) {
      assert f in Interval(n, n + |targets|) <==> Between(n, f, n + |targets|);
    }
  }

  lemma {:induction false} GrownCount(flows: map<Id, Flow>, k: Id, n: nat, targets: seq<Id>)
    requires forall f :: f in flows ==> f < n
    ensures |GrownFlows(flows, k, n, targets)| == |flows| + |targets|
  {
    if targets != [] {
      var rest := targets[..|targets| - 1];
      GrownCount(flows, k, n, rest);
      GrownFlowsAre(flows, k, n, rest);
      assert n + |rest| !in GrownFlows(flows, k, n, rest);
    }
  }

  lemma UpdateAdds(tree: Tree, tree': Tree, t: Type, node: Node)
    requires tree' == PutNode(tree, t, node)
    requires IsActivity(t) ==> node.id in tree.activities && tree.activities[node.id].pipeline == node.pipeline
    ensures AllFlowIds(tree') == AllFlowIds(tree) && FlowCount(tree') == FlowCount(tree)
  {
    SubSame(tree, tree');
  }

  // ----- one turn on an element that is met again -----

  lemma UpdateSound(g: Graph, nodes: map<Id, Node>, flows: map<Id, Flow>, incoming: Incoming, queue: seq<Id>, n: nat)
    requires WellFormed(g) && Sound(g, nodes, flows, incoming, queue, n) && queue != [] && queue[0] in nodes
    ensures queue[0] in incoming
    ensures Sound(g, nodes[queue[0] := nodes[queue[0]].(incoming := incoming[queue[0]])], flows, incoming, queue[1..],
            n)
  {
    var k := queue[0];
    assert k in queue;
    assert queue == [k] + queue[1..];
    ElementsConcat([k], queue[1..]);
    assert Elements([k]) == {k};
    UpdateNodesAgree(g, nodes, flows, incoming, queue);
  }

  lemma UpdateNodesAgree(g: Graph, nodes: map<Id, Node>, flows: map<Id, Flow>, incoming: Incoming, queue: seq<Id>)
    requires queue != [] && queue[0] in nodes && queue[0] in incoming && NodesAgree(g, nodes, flows, incoming, queue)
    ensures NodesAgree(g, nodes[queue[0] := nodes[queue[0]].(incoming := incoming[queue[0]])], flows, incoming,
            queue[1..])
  {}

  // ----- the tables -----

  function PutNode(tree: Tree, t: Type, node: Node): Tree {
    if t.EmptyStartEvent? then tree.(startEvent := Some(node))
    else if t.EmptyEndEvent? then tree.(endEvent := Some(node))
    else if IsActivity(t) then tree.(activities := tree.activities[node.id := node])
    else tree.(gateways := tree.gateways[node.id := node])
  }

  lemma PutActivities(g: Graph, nodes: map<Id, Node>, k: Id, node: Node)
    requires k in g.elements
    ensures ActivitiesOf(g, nodes[k := node])
         == if IsActivity(g.elements[k].typ) then ActivitiesOf(g, nodes)[k := node] else ActivitiesOf(g, nodes)
  {}

  lemma PutGateways(g: Graph, nodes: map<Id, Node>, k: Id, node: Node)
    requires k in g.elements
    ensures GatewaysOf(g, nodes[k := node])
         == if IsGateway(g.elements[k].typ) then GatewaysOf(g, nodes)[k := node] else GatewaysOf(g, nodes)
  {}

  lemma PutEnd(g: Graph, nodes: map<Id, Node>, end: Option<Node>, k: Id, node: Node)
    requires WellFormed(g) && EndTable(g, nodes, end) && k in g.elements && node.id == k
    ensures EndTable(g, nodes[k := node], if IsEnd(g.elements[k]) then Some(node) else end)
  {}

  lemma PutTables(g: Graph, nodes: map<Id, Node>, tree: Tree, k: Id, node: Node)
    requires WellFormed(g) && Tables(g, nodes, tree) && k in g.elements && node.id == k
    ensures Tables(g, nodes[k := node], PutNode(tree, g.elements[k].typ, node))
  {
    assert Linked(g, k);
    PutActivities(g, nodes, k, node);
    PutGateways(g, nodes, k, node);
    PutEnd(g, nodes, tree.endEvent, k, node);
  }

  lemma NodeAtIs(g: Graph, nodes: map<Id, Node>, tree: Tree, k: Id)
    requires WellFormed(g) && Tables(g, nodes, tree) && k in nodes
    ensures NodeAt(tree, g.elements[k]) == Some(nodes[k]) && g.elements[k].id == k
  {}

  lemma FlowsDoNotMatter(g: Graph, nodes: map<Id, Node>, tree: Tree, flows: map<Id, Flow>)
    requires Tables(g, nodes, tree)
    ensures Tables(g, nodes, tree.(flows := flows))
  {}

  // ----- the operations -----

  predicate TakesMultipleIncoming(t: Type) {
    !t.EmptyStartEvent?
  }

  /** __grow_flow, for each outgoing flow of an element in turn. */
  method GrowFlows(g: Graph, flows: map<Id, Flow>, incoming: Incoming, k: Id, n: nat, targets: seq<Id>)
    returns (flows': map<Id, Flow>, incoming': Incoming)
    requires Elements(targets) <= g.elements.Keys
    requires forall t :: t in targets ==> TakesMultipleIncoming(g.elements[t].typ)
    ensures flows' == GrownFlows(flows, k, n, targets) && incoming' == GrownIncoming(incoming, n, targets)
  {
    flows', incoming' := flows, incoming;
    for i := 0 to |targets|
      invariant flows' == GrownFlows(flows, k, n, targets[..i])
      invariant incoming' == GrownIncoming(incoming, n, targets[..i])
    {
      var t, f := targets[i], n + i;
      assert t in Elements(targets);
      assert targets[..i + 1][..i] == targets[..i];
      flows' := flows'[f := Flow(k, t)];
      incoming' := incoming'[t := if TakesMultipleIncoming(g.elements[t].typ) then In(incoming', t) + [f] else [f]];
    }
    assert targets[..|targets|] == targets;
  }

  /** link_conditions_with. */
  method LinkConditions(e: Element, outgoing: seq<Id>) returns (linked: map<Id, Id>)
    requires Distinct(outgoing) && forall i :: 0 <= i < |outgoing| ==> i in e.conditions
    ensures linked.Keys == Elements(outgoing)
    ensures forall i :: 0 <= i < |outgoing| ==> outgoing[i] in linked && linked[outgoing[i]] == e.conditions[i]
  {
    linked := map[];
    for i := 0 to |outgoing|
      invariant linked.Keys == Elements(outgoing[..i])
      invariant forall j :: 0 <= j < i ==> outgoing[j] in linked && linked[outgoing[j]] == e.conditions[j]
    {
      forall j | 0 <= j < i ensures outgoing[j] != outgoing[i] {
        assert Differ(outgoing, j, i);
      }
      assert outgoing[..i + 1] == outgoing[..i] + [outgoing[i]];
      linked := linked[outgoing[i] := e.conditions[i]];
    }
    assert outgoing[..|outgoing|] == outgoing;
  }

  /** The tree of a nested graph. */
  method GrowNested(g: Graph, e: Element, n: nat) returns (pipeline: Option<Tree>, n': nat)
    requires WellFormed(g) && e.id in g.elements && g.elements[e.id] == e
    ensures if e.typ.SubProcess? && e.template.None? then
              e.nested.Some? && pipeline.Some? && pipeline.value.id == e.id
              && Built(e.nested.value, pipeline.value) && NumbersFlows(pipeline.value, n, n')
            else pipeline == None && n' == n
    decreases g, 0
  {
    assert WellFormedElement(g.elements[e.id]);
    pipeline, n' := None, n;
    if e.typ.SubProcess? && e.template.None? {
      var tree;
      tree, n' := BuildTree(e.nested.value, e.id, n);
      pipeline := Some(tree);
    }
  }

  method LinkIfConditional(g: Graph, e: Element, outgoing: seq<Id>) returns (linked: map<Id, Id>)
    requires e.id in g.elements && Linked(g, e.id) && g.elements[e.id] == e
    requires Distinct(outgoing) && |outgoing| == |e.outgoing|
    ensures forall node: Node :: node.outgoing == outgoing && node.conditions == linked ==> Conditioned(e, node)
  {
    linked := map[];
    if IsConditional(e.typ) {
      linked := LinkConditions(e, outgoing);
    }
  }

  /** The node of an element, with fresh outgoing flows; a nested graph is built here. */
  method GrowNode(g: Graph, e: Element, incoming: seq<Id>, n: nat) returns (node: Node, n': nat)
    requires WellFormed(g) && e.id in g.elements && g.elements[e.id] == e
    ensures Matches(e, node) && Conditioned(e, node)
    ensures node.outgoing == Fresh(n, |e.outgoing|) && node.incoming == incoming
    ensures NumbersNode(node, n + |e.outgoing|, n')
    decreases g, 1
  {
    assert Linked(g, e.id);
    var outgoing := Fresh(n, |e.outgoing|);
    FreshDistinct(n, |e.outgoing|);
    var linked := LinkIfConditional(g, e, outgoing);
    var pipeline;
    pipeline, n' := GrowNested(g, e, n + |e.outgoing|);
    node := Node(e.id, e.typ, incoming, outgoing, linked, if e.typ.SubProcess? then e.template else None, pipeline);
    NestedNumbers(node, n + |e.outgoing|, n');
  }

  lemma NestedNumbers(node: Node, n: nat, n': nat)
    requires if node.pipeline.Some? then NumbersFlows(node.pipeline.value, n, n') else n' == n
    ensures NumbersNode(node, n, n')
  {}

  /** The node and the flows of an element that was not met before. */
  method GrowParts(g: Graph, ghost nodes: map<Id, Node>, tree: Tree, incoming: Incoming, queue: seq<Id>, n: nat)
    returns (node: Node, flows: map<Id, Flow>, incoming': Incoming, n': nat)
    requires WellFormed(g) && queue != [] && queue[0] in g.elements
    requires Sound(g, nodes, tree.flows, incoming, queue, n)
    ensures Grown(g, queue[0], node, incoming, n) && NumbersNode(node, n + |g.elements[queue[0]].outgoing|, n')
    ensures flows == GrownFlows(tree.flows, queue[0], n, g.elements[queue[0]].outgoing)
    ensures incoming' == GrownIncoming(incoming, n, g.elements[queue[0]].outgoing)
    decreases g, 2
  {
    var k := queue[0];
    var e := g.elements[k];
    IncomingFound(g, nodes, tree.flows, incoming, queue, n);
    TargetsAreMultiple(g, k);
    node, n' := GrowNode(g, e, if e.typ.EmptyStartEvent? then [] else incoming[k], n);
    flows, incoming' := GrowFlows(g, tree.flows, incoming, k, n, e.outgoing);
  }

  /** A turn of the loop on an element that was not met before. */
  method Grow(g: Graph, ghost nodes: map<Id, Node>, tree: Tree, incoming: Incoming, queue: seq<Id>, n: nat)
    returns (ghost nodes': map<Id, Node>, tree': Tree, incoming': Incoming, queue': seq<Id>, n': nat)
    requires WellFormed(g) && queue != [] && queue[0] !in nodes && queue[0] in g.elements
    requires Sound(g, nodes, tree.flows, incoming, queue, n) && Tables(g, nodes, tree)
    ensures Sound(g, nodes', tree'.flows, incoming', queue', n') && Tables(g, nodes', tree')
    ensures nodes'.Keys == nodes.Keys + {queue[0]} && tree'.id == tree.id
    ensures Adds(tree, tree', n, n')
    decreases g, 3
  {
    var k := queue[0];
    var e := g.elements[k];
    var node, flows;
    node, flows, incoming', n' := GrowParts(g, nodes, tree, incoming, queue, n);
    queue' := queue[1..] + e.outgoing;
    tree' := PutNode(tree, e.typ, node).(flows := flows);
    nodes' := nodes[k := node];
    GrowTurnSound(g, nodes, tree.flows, incoming, queue, n, node, nodes', flows, incoming', queue', n');
    GrowTurnTables(g, nodes, tree, k, node, n, n', tree');
  }

  lemma GrowTurnSound(g: Graph, nodes: map<Id, Node>, flows: map<Id, Flow>, incoming: Incoming, queue: seq<Id>, n: nat,
                      node: Node, nodes': map<Id, Node>, flows': map<Id, Flow>, incoming': Incoming, queue': seq<Id>,
                      n': nat)
    requires WellFormed(g) && Sound(g, nodes, flows, incoming, queue, n)
    requires queue != [] && queue[0] !in nodes && queue[0] in g.elements && Grown(g, queue[0], node, incoming, n)
    requires n' >= n + |g.elements[queue[0]].outgoing| && nodes' == nodes[queue[0] := node]
    requires var k, targets := queue[0], g.elements[queue[0]].outgoing;
             && flows' == GrownFlows(flows, k, n, targets) && incoming' == GrownIncoming(incoming, n, targets)
             && queue' == queue[1..] + targets
    ensures Sound(g, nodes', flows', incoming', queue', n') && nodes'.Keys == nodes.Keys + {queue[0]}
  {
    GrowSound(g, nodes, flows, incoming, queue, n, node, n');
  }

  lemma GrowTurnTables(g: Graph, nodes: map<Id, Node>, tree: Tree, k: Id, node: Node, n: nat, n': nat, tree': Tree)
    requires WellFormed(g) && k in g.elements && k !in nodes && node.id == k && Tables(g, nodes, tree)
    requires (forall f :: f in tree.flows ==> f < n) && NumbersNode(node, n + |g.elements[k].outgoing|, n')
    requires !IsActivity(g.elements[k].typ) ==> node.pipeline == None
    requires var e := g.elements[k];
             tree' == PutNode(tree, e.typ, node).(flows := GrownFlows(tree.flows, k, n, e.outgoing))
    ensures Tables(g, nodes[k := node], tree') && tree'.id == tree.id && Adds(tree, tree', n, n')
  {
    var e := g.elements[k];
    GrowTables(g, nodes, tree, k, node, tree'.flows);
    GrowAdds(tree, tree', e.typ, node, e.outgoing, n, n');
  }

  lemma TargetsAreMultiple(g: Graph, k: Id)
    requires WellFormed(g) && k in g.elements
    ensures g.elements[k].id == k && Elements(g.elements[k].outgoing) <= g.elements.Keys
    ensures forall t :: t in g.elements[k].outgoing ==> t in g.elements && TakesMultipleIncoming(g.elements[t].typ)
  {}

  /** No flow leads into the start. */
  lemma StartHasNone(g: Graph, nodes: map<Id, Node>, flows: map<Id, Flow>, incoming: Incoming, queue: seq<Id>, n: nat)
    requires WellFormed(g) && Sound(g, nodes, flows, incoming, queue, n)
    ensures In(incoming, g.start) == []
  {
    forall f | f in flows ensures flows[f].target != g.start {
      var k := flows[f].source;
      assert f in FlowsFrom(flows, k) && f in Elements(nodes[k].outgoing);
      var i :| 0 <= i < |nodes[k].outgoing| && nodes[k].outgoing[i] == f;
      assert Targets(g.elements[k], nodes[k], flows) && Linked(g, k);
      assert g.elements[k].outgoing[i] in Elements(g.elements[k].outgoing);
    }
    assert FlowsInto(flows, g.start) == {};
    assert Records(flows, incoming, g.start);
    NothingListed(In(incoming, g.start));
  }

  lemma NothingListed(s: seq<Id>)
    ensures Elements(s) == {} ==> s == []
  {
    if s != [] {
      assert s[0] in Elements(s);
    }
  }

  /** What the lookup of an element's incoming flows finds. */
  lemma IncomingFound(g: Graph, nodes: map<Id, Node>, flows: map<Id, Flow>, incoming: Incoming, queue: seq<Id>, n: nat)
    requires WellFormed(g) && Sound(g, nodes, flows, incoming, queue, n) && queue != [] && queue[0] in g.elements
    ensures !g.elements[queue[0]].typ.EmptyStartEvent? ==> queue[0] in incoming
    ensures g.elements[queue[0]].typ.EmptyStartEvent? ==> In(incoming, queue[0]) == []
  {
    assert queue[0] in queue && Linked(g, queue[0]);
    StartHasNone(g, nodes, flows, incoming, queue, n);
  }

  lemma GrowTables(g: Graph, nodes: map<Id, Node>, tree: Tree, k: Id, node: Node, flows: map<Id, Flow>)
    requires WellFormed(g) && Tables(g, nodes, tree) && k in g.elements && node.id == k
    ensures Tables(g, nodes[k := node], PutNode(tree, g.elements[k].typ, node).(flows := flows))
  {
    PutTables(g, nodes, tree, k, node);
    FlowsDoNotMatter(g, nodes[k := node], PutNode(tree, g.elements[k].typ, node), flows);
  }

  /** __update: a turn on an element that is met again. */
  method Update(g: Graph, ghost nodes: map<Id, Node>, tree: Tree, incoming: Incoming, queue: seq<Id>, ghost n: nat)
    returns (ghost nodes': map<Id, Node>, tree': Tree)
    requires WellFormed(g) && queue != [] && queue[0] in nodes
    requires Sound(g, nodes, tree.flows, incoming, queue, n) && Tables(g, nodes, tree)
    ensures Sound(g, nodes', tree'.flows, incoming, queue[1..], n) && Tables(g, nodes', tree')
    ensures nodes'.Keys == nodes.Keys && tree'.id == tree.id
    ensures AllFlowIds(tree') == AllFlowIds(tree) && FlowCount(tree') == FlowCount(tree)
  {
    var k := queue[0];
    UpdateSound(g, nodes, tree.flows, incoming, queue, n);
    NodeAtIs(g, nodes, tree, k);
    var e := g.elements[k];
    var node := NodeAt(tree, e).value.(incoming := incoming[k]);
    tree' := PutNode(tree, e.typ, node);
    nodes' := nodes[k := node];
    UpdateTables(g, nodes, tree, k, node, tree');
  }

  lemma UpdateTables(g: Graph, nodes: map<Id, Node>, tree: Tree, k: Id, node: Node, tree': Tree)
    requires WellFormed(g) && Tables(g, nodes, tree) && k in nodes && node.id == k
    requires node.pipeline == nodes[k].pipeline && tree' == PutNode(tree, g.elements[k].typ, node)
    ensures Tables(g, nodes[k := node], tree') && tree'.id == tree.id && tree'.flows == tree.flows
    ensures AllFlowIds(tree') == AllFlowIds(tree) && FlowCount(tree') == FlowCount(tree)
  {
    PutTables(g, nodes, tree, k, node);
    NodeAtIs(g, nodes, tree, k);
    UpdateAdds(tree, tree', g.elements[k].typ, node);
  }

  lemma GrowLowers(all: set<Id>, done: set<Id>, k: Id)
    requires k in all && k !in done
    ensures |all - (done + {k})| < |all - done|
  {
    assert all - done == (all - (done + {k})) + {k};
  }

  lemma TablesStart(g: Graph, id: Id)
    ensures Tables(g, map[], Tree(id, None, None, map[], map[], map[]))
  {}

  lemma AddsOn(tree: Tree, tree': Tree, start: nat, n: nat, n': nat)
    requires NumbersFlows(tree, start, n) && Adds(tree, tree', n, n')
    ensures NumbersFlows(tree', start, n')
  {
    IntervalsJoin(start, n, n');
  }

  /** build_tree. */
  method BuildTree(g: Graph, id: Id, n: nat) returns (tree: Tree, n': nat)
    requires WellFormed(g)
    ensures Built(g, tree) && tree.id == id
    ensures n <= n' && AllFlowIds(tree) == Interval(n, n') && FlowCount(tree) == n' - n
    decreases g, 4
  {
    tree, n' := Tree(id, None, None, map[], map[], map[]), n;
    var incoming: Incoming := map[];
    var queue, processed := [g.start], {};
    ghost var nodes: map<Id, Node> := map[];
    SoundStart(g, n);
    TablesStart(g, id);
    while queue != []
      invariant Sound(g, nodes, tree.flows, incoming, queue, n') && Tables(g, nodes, tree)
      invariant processed == nodes.Keys && tree.id == id && NumbersFlows(tree, n, n')
      decreases |g.elements.Keys - processed|, |queue|
    {
      assert queue[0] in Elements(queue);
      if queue[0] in processed {
        nodes, tree := Update(g, nodes, tree, incoming, queue, n');
        queue := queue[1..];
      } else {
        GrowLowers(g.elements.Keys, processed, queue[0]);
        processed := processed + {queue[0]};
        ghost var before, from := tree, n';
        nodes, tree, incoming, queue, n' := Grow(g, nodes, tree, incoming, queue, n');
        AddsOn(before, tree, n, from, n');
      }
    }
    SoundEnd(g, nodes, tree.flows, incoming, n', tree);
  }
}
