/** pipeline/models.py: validated creation, update and deletion of templates. */
module TemplateManagers {
  import opened CycleSearch
  import opened Options
  import opened RefGraphs
  import opened Templates
  import opened Walks

  datatype Verdict = Accepted | UnknownTemplate | UnknownVersion | ReferenceCycle(trace: seq<Ref>)

  /** The references a validation looks at, with the root's. */
  ghost predicate Visited(store: Store, first: seq<Ref>, root: Option<Ref>, r: Ref) {
    root == Some(r) || Reached(store, first, root, r)
  }

  ghost function VisitedEdges(store: Store, first: seq<Ref>, root: Option<Ref>): set<(Ref, Ref)> {
    set e | e in ListedEdges(store, first, root) && Visited(store, first, root, e.0)
  }

  /** What a validation is meant to establish. */
  ghost predicate Admissible(store: Store, first: seq<Ref>, root: Option<Ref>) {
    && (forall r :: Reached(store, first, root, r) ==> Resolves(store, r))
    && !Cyclic(VisitedEdges(store, first, root))
  }

  function GraphEdges(graph: map<Ref, seq<Ref>>): set<(Ref, Ref)> {
    set r, s | r in graph && s in graph[r] && s in graph :: (r, s)
  }

  function RowEdges(graph: map<Ref, seq<Ref>>, rows: seq<Ref>): set<(Ref, Ref)> {
    set r, s | r in rows && r in graph && s in graph[r] && s in graph :: (r, s)
  }

  method RowFlows(graph: map<Ref, seq<Ref>>, r: Ref) returns (flows: seq<(Ref, Ref)>)
    requires r in graph
    ensures Elements(flows) == RowEdges(graph, [r])
  {
    flows := [];
    for i := 0 to |graph[r]|
      invariant forall e :: e in flows <==> e.0 == r && e.1 in graph[r][..i] && e.1 in graph
    {
      if graph[r][i] in graph {
        flows := flows + [(r, graph[r][i])];
      }
    }
    assert graph[r][..|graph[r]|] == graph[r];
  }

  method Flows(order: seq<Ref>, graph: map<Ref, seq<Ref>>) returns (flows: seq<(Ref, Ref)>)
    requires Elements(order) == graph.Keys
    ensures Elements(flows) == GraphEdges(graph)
  {
    flows := [];
    for i := 0 to |order|
      invariant Elements(flows) == RowEdges(graph, order[..i])
    {
      assert order[i] in Elements(order);
      var row := RowFlows(graph, order[i]);
      ElementsConcat(flows, row);
      assert order[..i + 1] == order[..i] + [order[i]];
      assert RowEdges(graph, order[..i + 1]) == RowEdges(graph, order[..i]) + RowEdges(graph, [order[i]]);
      flows := flows + row;
    }
    assert order[..|order|] == order;
    assert forall r :: r in graph ==> r in Elements(order);
  }

  lemma GraphIsVisited(store: Store, first: seq<Ref>, root: Option<Ref>, graph: map<Ref, seq<Ref>>)
    requires IsRefGraph(store, first, root, graph)
    requires forall r :: r in graph && root != Some(r) ==> r in Nodes(store)
    ensures GraphEdges(graph) == VisitedEdges(store, first, root)
  {}

  /** subprocess_ref_validate: accepts exactly the admissible data. */
  method Validate(store: Store, data: Pipeline, root: Option<Ref>) returns (verdict: Verdict)
    requires root.Some? ==> Resolves(store, root.value)
    ensures verdict == Accepted <==> Admissible(store, Refs(data), root)
    ensures verdict.ReferenceCycle? ==> ClosedWalk(VisitedEdges(store, Refs(data), root), verdict.trace)
    ensures verdict == UnknownTemplate ==> ReachesUnresolved(store, Refs(data), root, true)
    ensures verdict == UnknownVersion ==> ReachesUnresolved(store, Refs(data), root, false)
  {
    var built := Construct(store, data, root);
    match built
    case NoTemplate => return UnknownTemplate;
    case NoSnapshot => return UnknownVersion;
    case Built(order, graph) =>
      GraphIsVisited(store, Refs(data), root, graph);
      BuiltResolves(store, Refs(data), root, graph);
      var trace := Cycle(order, graph);
      if trace != [] {
        return ReferenceCycle(trace);
      }
      return Accepted;
  }

  lemma BuiltResolves(store: Store, first: seq<Ref>, root: Option<Ref>, graph: map<Ref, seq<Ref>>)
    requires root.Some? ==> Resolves(store, root.value)
    requires IsRefGraph(store, first, root, graph)
    requires forall r :: r in graph && root != Some(r) ==> r in Nodes(store)
    ensures forall r :: Reached(store, first, root, r) ==> Resolves(store, r)
  {}

  /** The cycle check on the built graph. */
  method Cycle(order: seq<Ref>, graph: map<Ref, seq<Ref>>) returns (trace: seq<Ref>)
    requires Elements(order) == graph.Keys
    ensures trace == [] <==> !Cyclic(GraphEdges(graph))
    ensures trace != [] ==> ClosedWalk(GraphEdges(graph), trace)
  {
    var flows := Flows(order, graph);
    var g := new Graph(order, flows);
    CycleFromIsCyclic(GraphEdges(graph), order);
    trace := g.GetCycle();
  }

  // ----- storing validated data -----

  type Digest = Pipeline -> Id

  ghost predicate Injective(md5: Digest) {
    forall p, q :: md5(p) == md5(q) ==> p == q
  }

  /** Snapshots are filed under the digest of their data. */
  ghost predicate Filed(store: Store, md5: Digest) {
    forall v :: v in store.snapshots ==> md5(store.snapshots[v]) == v
  }

  /** The template takes new data; create_or_get_snapshot files it. */
  function Put(store: Store, md5: Digest, t: Id, name: Id, data: Pipeline, deleted: bool): Store {
    var v := md5(data);
    Store(store.templates[t := Template(name, v, deleted)],
          if v in store.snapshots then store.snapshots else store.snapshots[v := data])
  }

  ghost predicate Consistent(store: Store, md5: Digest) {
    Closed(store) && Acyclic(store) && Filed(store, md5)
  }

  /** The one family of updates that slips through: the data lists its own template, unversioned, while the
      template's stored data has no subprocess. */
  predicate SelfOverLeaf(store: Store, t: Id, data: Pipeline) {
    Current(t) in Refs(data) && StoredRefs(store, Current(t)) == []
  }

  ghost predicate AllResolve(store: Store, refs: seq<Ref>) {
    forall r :: r in refs ==> Resolves(store, r)
  }

  // What a put changes.

  lemma PutSnapshots(store: Store, md5: Digest, t: Id, name: Id, data: Pipeline, deleted: bool)
    requires Injective(md5) && Filed(store, md5)
    ensures Put(store, md5, t, name, data, deleted).snapshots == store.snapshots[md5(data) := data]
    ensures Filed(Put(store, md5, t, name, data, deleted), md5)
  {}

  /** Old references keep resolving; they keep their data too, save the template's current one. */
  lemma PutKeeps(store: Store, md5: Digest, t: Id, name: Id, data: Pipeline, deleted: bool, r: Ref)
    requires Injective(md5) && Filed(store, md5) && Resolves(store, r)
    ensures var store' := Put(store, md5, t, name, data, deleted);
            Resolves(store', r) && StoredRefs(store', r) == if r == Current(t) then Refs(data) else StoredRefs(store, r)
  {}

  lemma PutClosed(store: Store, md5: Digest, t: Id, name: Id, data: Pipeline, deleted: bool)
    requires Injective(md5) && Filed(store, md5) && Closed(store) && AllResolve(store, Refs(data))
    ensures Closed(Put(store, md5, t, name, data, deleted))
  {
    var store' := Put(store, md5, t, name, data, deleted);
    PutSnapshots(store, md5, t, name, data, deleted);
    forall v, s | v in store'.snapshots && s in Refs(store'.snapshots[v]) ensures Resolves(store', s) {
      assert Resolves(store, s);
      PutKeeps(store, md5, t, name, data, deleted, s);
    }
  }

  /** A reference that resolves only after the put stands for the new data, or for an old version under the
      new template; either way it refers to what resolved before. */
  lemma NewRefs(store: Store, md5: Digest, t: Id, name: Id, data: Pipeline, deleted: bool, r: Ref, s: Ref)
    requires Injective(md5) && Filed(store, md5) && Closed(store) && AllResolve(store, Refs(data))
    requires (r, s) in StoreEdges(Put(store, md5, t, name, data, deleted))
    ensures Resolves(store, s)
    ensures !Resolves(store, r) ==> s in Refs(data) || t !in store.templates
  {}

  /** A new template cannot close a cycle: nothing stored refers to it. */
  lemma CreateAcyclic(store: Store, md5: Digest, t: Id, name: Id, data: Pipeline)
    requires Injective(md5) && Consistent(store, md5) && AllResolve(store, Refs(data)) && t !in store.templates
    ensures Acyclic(Put(store, md5, t, name, data, false))
  {
    var store' := Put(store, md5, t, name, data, false);
    var edges, old_ := StoreEdges(store'), Nodes(store);
    forall e | e in edges ensures e.1 in old_ && (e.0 in old_ ==> e in StoreEdges(store)) {
      NewRefs(store, md5, t, name, data, false, e.0, e.1);
      NodesResolve(store, e.1);
      NodesResolve(store, e.0);
      if e.0 in old_ {
        PutKeeps(store, md5, t, name, data, false, e.0);
      }
    }
    FewerEdgesStayAcyclic(EdgesWithin(edges, old_), StoreEdges(store));
    assert EdgesOutside(edges, old_) == {};
    NoEdgesNoCycle(EdgesOutside(edges, old_));
    AcyclicByParts(edges, old_);
  }

  lemma NoEdgesNoCycle(edges: set<(Ref, Ref)>)
    requires edges == {}
    ensures !Cyclic(edges)
  {
    RankedIsAcyclic(edges, map[]);
  }

  lemma FirstIsReached(store: Store, first: seq<Ref>, root: Option<Ref>, r: Ref)
    requires r in first
    ensures Reached(store, first, root, r)
  {
    assert Walk(ListedEdges(store, first, root), [r]);
  }

  ghost function VisitedNodes(store: Store, first: seq<Ref>, root: Option<Ref>): set<Ref> {
    set r | r in Nodes(store) && Visited(store, first, root, r)
  }

  /** Along the visited references an accepted update changes the store's graph as the validation saw it. */
  lemma UpdateInside(store: Store, md5: Digest, t: Id, name: Id, data: Pipeline, deleted: bool, e: (Ref, Ref))
    requires Injective(md5) && Consistent(store, md5) && t in store.templates && Current(t) !in Refs(data)
    requires Admissible(store, Refs(data), Some(Current(t)))
    requires e in StoreEdges(Put(store, md5, t, name, data, deleted))
    requires e.0 in VisitedNodes(store, Refs(data), Some(Current(t)))
    ensures e in VisitedEdges(store, Refs(data), Some(Current(t)))
    ensures e.1 in VisitedNodes(store, Refs(data), Some(Current(t)))
  {
    var first, root := Refs(data), Some(Current(t));
    NodesResolve(store, e.0);
    PutKeeps(store, md5, t, name, data, deleted, e.0);
    assert e.1 in Listed(store, first, root, e.0);
    if e.0 == Current(t) {
      FirstIsReached(store, first, root, e.1);
    } else {
      ReachedStep(store, first, root, e.0, e.1);
    }
    NodesResolve(store, e.1);
  }

  lemma AdmissibleResolves(store: Store, first: seq<Ref>, root: Option<Ref>)
    requires Admissible(store, first, root)
    ensures AllResolve(store, first)
  {
    forall r | r in first ensures Resolves(store, r) {
      FirstIsReached(store, first, root, r);
    }
  }

  /** An accepted update of data that does not list its own template keeps the store acyclic. */
  lemma UpdateAcyclic(store: Store, md5: Digest, t: Id, name: Id, data: Pipeline, deleted: bool)
    requires Injective(md5) && Consistent(store, md5) && t in store.templates && Current(t) !in Refs(data)
    requires Admissible(store, Refs(data), Some(Current(t)))
    ensures Acyclic(Put(store, md5, t, name, data, deleted))
  {
    var first, root := Refs(data), Some(Current(t));
    var store' := Put(store, md5, t, name, data, deleted);
    var edges, inside := StoreEdges(store'), VisitedNodes(store, first, root);
    AdmissibleResolves(store, first, root);
    forall e | e in edges && e.0 in inside ensures e.1 in inside && e in VisitedEdges(store, first, root) {
      UpdateInside(store, md5, t, name, data, deleted, e);
    }
    forall e | e in edges && e.0 !in inside && e.1 !in inside ensures e in StoreEdges(store) {
      UpdateOutside(store, md5, t, name, data, deleted, e);
    }
    FewerEdgesStayAcyclic(EdgesWithin(edges, inside), VisitedEdges(store, first, root));
    FewerEdgesStayAcyclic(EdgesOutside(edges, inside), StoreEdges(store));
    AcyclicByParts(edges, inside);
  }

  lemma UpdateOutside(store: Store, md5: Digest, t: Id, name: Id, data: Pipeline, deleted: bool, e: (Ref, Ref))
    requires Injective(md5) && Consistent(store, md5) && t in store.templates && AllResolve(store, Refs(data))
    requires e in StoreEdges(Put(store, md5, t, name, data, deleted))
    requires e.0 !in VisitedNodes(store, Refs(data), Some(Current(t)))
    requires e.1 !in VisitedNodes(store, Refs(data), Some(Current(t)))
    ensures e in StoreEdges(store)
  {
    NewRefs(store, md5, t, name, data, deleted, e.0, e.1);
    NodesResolve(store, e.0);
    NodesResolve(store, e.1);
    NodesResolve(store, Current(t));
    if e.1 in Refs(data) {
      FirstIsReached(store, Refs(data), Some(Current(t)), e.1);
    }
    PutKeeps(store, md5, t, name, data, deleted, e.0);
  }
}
