/** pipeline/models.py: what creating, updating and deleting templates keep, over whole runs. */
module TemplateRuns {
  import opened Options
  import opened RefGraphs
  import opened TemplateManagers
  import opened Templates
  import opened Walks

  // ----- exactly which updates are accepted -----

  /** Following stored references from one of the given references leads to r. */
  ghost predicate Leads(store: Store, first: seq<Ref>, r: Ref) {
    exists w :: Walk(StoreEdges(store), w) && w[0] in first && w[|w| - 1] == r
  }

  /** The walk up to its first visit of v. */
  lemma {:induction false} FirstVisit(edges: set<(Ref, Ref)>, w: seq<Ref>, v: Ref) returns (p: seq<Ref>)
    requires Walk(edges, w) && w[|w| - 1] == v
    ensures Walk(edges, p) && p[0] == w[0] && p[|p| - 1] == v && v !in p[..|p| - 1]
  {
    if w[0] == v {
      p := [v];
    } else {
      WalkSlice(edges, w, 1, |w|);
      var rest := FirstVisit(edges, w[1..], v);
      p := [w[0]] + rest;
      forall i | 0 <= i < |p| - 1 ensures (p[i], p[i + 1]) in edges {
        if i > 0 {
          assert (rest[i - 1], rest[i]) in edges;
        }
      }
      assert p[..|p| - 1] == [w[0]] + rest[..|rest| - 1];
    }
  }

  /** Away from the root the listed references are the stored ones. */
  lemma SameAwayFromRoot(store: Store, first: seq<Ref>, root: Ref, e: (Ref, Ref))
    requires e.0 != root
    ensures e in ListedEdges(store, first, Some(root)) <==> e in StoreEdges(store)
  {}

  lemma SameWalk(store: Store, first: seq<Ref>, root: Ref, p: seq<Ref>)
    requires p != [] && root !in p[..|p| - 1]
    ensures Walk(ListedEdges(store, first, Some(root)), p) <==> Walk(StoreEdges(store), p)
  {}

  lemma LeadsIsReached(store: Store, first: seq<Ref>, root: Ref)
    ensures Leads(store, first, root) <==> Reached(store, first, Some(root), root)
  {
    if Leads(store, first, root) {
      var w :| Walk(StoreEdges(store), w) && w[0] in first && w[|w| - 1] == root;
      var p := FirstVisit(StoreEdges(store), w, root);
      SameWalk(store, first, root, p);
    }
    if Reached(store, first, Some(root), root) {
      var w :| Walk(ListedEdges(store, first, Some(root)), w) && w[0] in first && w[|w| - 1] == root;
      var p := FirstVisit(ListedEdges(store, first, Some(root)), w, root);
      SameWalk(store, first, root, p);
    }
  }

  /** A way back to the root is a visited cycle. */
  lemma WayBackIsCyclic(store: Store, first: seq<Ref>, root: Ref)
    requires root !in first && Reached(store, first, Some(root), root)
    ensures Cyclic(VisitedEdges(store, first, Some(root)))
  {
    var edges := ListedEdges(store, first, Some(root));
    var w :| Walk(edges, w) && w[0] in first && w[|w| - 1] == root;
    var c := [root] + w;
    forall i | 0 <= i < |c| - 1 ensures (c[i], c[i + 1]) in VisitedEdges(store, first, Some(root)) {
      if i > 0 {
        assert (w[i - 1], w[i]) in edges;
        WalkSlice(edges, w, 0, i);
        assert w[0..i][|w[0..i]| - 1] == c[i];
        assert Reached(store, first, Some(root), c[i]);
      }
    }
    assert ClosedWalk(VisitedEdges(store, first, Some(root)), c);
  }

  ghost function ReachedNodes(store: Store, first: seq<Ref>, root: Ref): set<Ref> {
    set r | r in Nodes(store) && Reached(store, first, Some(root), r)
  }

  lemma {:induction false} StoredWalkResolves(store: Store, first: seq<Ref>, r: Ref)
    requires Closed(store) && AllResolve(store, first) && Leads(store, first, r)
    ensures Resolves(store, r)
  {
    var w :| Walk(StoreEdges(store), w) && w[0] in first && w[|w| - 1] == r;
    NodesResolve(store, w[0]);
    NodesResolve(store, r);
    forall e | e in StoreEdges(store) ensures e.1 in Nodes(store) {
      NodesResolve(store, e.0);
      NodesResolve(store, e.1);
    }
    WalkStays(StoreEdges(store), Nodes(store), w);
  }

  /** When nothing leads back to the root, what is reached is what the store leads to. */
  lemma ReachedIsStored(store: Store, first: seq<Ref>, root: Ref, r: Ref)
    requires !Reached(store, first, Some(root), root) && Reached(store, first, Some(root), r)
    ensures Leads(store, first, r)
  {
    var edges := ListedEdges(store, first, Some(root));
    var w :| Walk(edges, w) && w[0] in first && w[|w| - 1] == r;
    forall i | 0 <= i < |w| - 1 ensures w[i] != root {
      WalkSlice(edges, w, 0, i + 1);
      assert w[0..i + 1][|w[0..i + 1]| - 1] == w[i];
      assert Reached(store, first, Some(root), w[i]);
    }
    SameWalk(store, first, root, w);
  }

  lemma NoWayBackIsAcyclic(store: Store, first: seq<Ref>, root: Ref)
    requires Closed(store) && Acyclic(store) && AllResolve(store, first) && root !in first
    requires !Reached(store, first, Some(root), root)
    ensures Admissible(store, first, Some(root))
  {
    var edges, inside := VisitedEdges(store, first, Some(root)), ReachedNodes(store, first, root);
    forall r | Reached(store, first, Some(root), r) ensures Resolves(store, r) && r in inside {
      ReachedIsStored(store, first, root, r);
      StoredWalkResolves(store, first, r);
      NodesResolve(store, r);
    }
    forall e | e in edges ensures e.1 in inside {
      if e.0 == root {
        FirstIsReached(store, first, Some(root), e.1);
      } else {
        NodesResolve(store, e.0);
        ReachedStep(store, first, Some(root), e.0, e.1);
      }
    }
    forall e | e in EdgesWithin(edges, inside) ensures e in StoreEdges(store) {
      SameAwayFromRoot(store, first, root, e);
    }
    FewerEdgesStayAcyclic(EdgesWithin(edges, inside), StoreEdges(store));
    assert EdgesOutside(edges, inside) == {};
    NoEdgesNoCycle(EdgesOutside(edges, inside));
    AcyclicByParts(edges, inside);
  }

  /** An update whose data does not list its own template is accepted exactly when every reference resolves
      and none leads back to the template. */
  lemma AcceptedIff(store: Store, data: Pipeline, t: Id)
    requires Closed(store) && Acyclic(store) && Current(t) !in Refs(data)
    ensures Admissible(store, Refs(data), Some(Current(t)))
       <==> AllResolve(store, Refs(data)) && !Leads(store, Refs(data), Current(t))
  {
    var first, root := Refs(data), Current(t);
    LeadsIsReached(store, first, root);
    if Admissible(store, first, Some(root)) {
      AdmissibleResolves(store, first, Some(root));
      if Reached(store, first, Some(root), root) {
        WayBackIsCyclic(store, first, root);
      }
    }
    if AllResolve(store, first) && !Leads(store, first, root) {
      NoWayBackIsAcyclic(store, first, root);
    }
  }

  /** A creation is accepted exactly when every reference resolves. */
  lemma CreationAcceptedIff(store: Store, data: Pipeline)
    requires Closed(store) && Acyclic(store)
    ensures Admissible(store, Refs(data), None) <==> AllResolve(store, Refs(data))
  {
    var first := Refs(data);
    assert ListedEdges(store, first, None) == StoreEdges(store);
    if Admissible(store, first, None) {
      AdmissibleResolves(store, first, None);
    }
    if AllResolve(store, first) {
      forall r | Reached(store, first, None, r) ensures Resolves(store, r) {
        assert Leads(store, first, r);
        StoredWalkResolves(store, first, r);
      }
      FewerEdgesStayAcyclic(VisitedEdges(store, first, None), StoreEdges(store));
    }
  }

  // ----- data that lists its own template -----

  lemma LoopIsCyclic(edges: set<(Ref, Ref)>, r: Ref)
    requires (r, r) in edges
    ensures Cyclic(edges)
  {
    assert ClosedWalk(edges, [r, r]);
  }

  lemma SelfListedRejected(store: Store, t: Id, data: Pipeline)
    requires Current(t) in Refs(data) && StoredRefs(store, Current(t)) != []
    ensures !Admissible(store, Refs(data), Some(Current(t)))
  {
    LoopIsCyclic(VisitedEdges(store, Refs(data), Some(Current(t))), Current(t));
  }

  lemma SelfOverLeafAccepted(store: Store, t: Id, data: Pipeline)
    requires Closed(store) && Acyclic(store) && SelfOverLeaf(store, t, data) && AllResolve(store, Refs(data))
    ensures Admissible(store, Refs(data), Some(Current(t)))
  {
    var first, root := Refs(data), Some(Current(t));
    assert ListedEdges(store, first, root) == StoreEdges(store);
    forall r | Reached(store, first, root, r) ensures Resolves(store, r) {
      assert Leads(store, first, r);
      StoredWalkResolves(store, first, r);
    }
    FewerEdgesStayAcyclic(VisitedEdges(store, first, root), StoreEdges(store));
  }

  lemma SelfOverLeafCyclic(store: Store, md5: Digest, t: Id, name: Id, data: Pipeline, deleted: bool)
    requires Injective(md5) && Filed(store, md5) && Resolves(store, Current(t)) && Current(t) in Refs(data)
    ensures Cyclic(StoreEdges(Put(store, md5, t, name, data, deleted)))
  {
    PutKeeps(store, md5, t, name, data, deleted, Current(t));
    NodesResolve(Put(store, md5, t, name, data, deleted), Current(t));
    LoopIsCyclic(StoreEdges(Put(store, md5, t, name, data, deleted)), Current(t));
  }

  // ----- steps and runs -----

  datatype Op = Create(t: Id, name: Id, data: Pipeline)
              | Update(t: Id, name: Id, data: Pipeline)
              | Delete(ts: seq<Id>, names: map<Id, Id>)

  /** Deleted templates keep their rows and data, under a fresh name. */
  function Deleted(store: Store, ts: seq<Id>, names: map<Id, Id>): Store {
    Store(map t | t in store.templates :: if t in ts then
            Template(if t in names then names[t] else store.templates[t].name, store.templates[t].snapshot, true)
          else store.templates[t], store.snapshots)
  }

  /** Created ids are fresh, and only existing templates are updated. */
  predicate Applies(store: Store, op: Op) {
    match op
    case Create(t, _, _) => t !in store.templates
    case Update(t, _, _) => t in store.templates
    case Delete(_, _) => true
  }

  ghost function Step(store: Store, md5: Digest, op: Op): Store
    requires Applies(store, op)
  {
    match op
    case Create(t, name, data) =>
      if Admissible(store, Refs(data), None) then Put(store, md5, t, name, data, false) else store
    case Update(t, name, data) =>
      if Admissible(store, Refs(data), Some(Current(t))) then Put(store, md5, t, name, data, store.templates[t].deleted)
      else store
    case Delete(ts, names) => Deleted(store, ts, names)
  }

  /** The updates whose data lists its own template over stored data without subprocesses. */
  ghost predicate Slips(store: Store, op: Op) {
    op.Update? && SelfOverLeaf(store, op.t, op.data) && AllResolve(store, Refs(op.data))
  }

  lemma DeletedKeeps(store: Store, md5: Digest, ts: seq<Id>, names: map<Id, Id>)
    requires Consistent(store, md5)
    ensures Consistent(Deleted(store, ts, names), md5)
    ensures StoreEdges(Deleted(store, ts, names)) == StoreEdges(store)
  {
    var store' := Deleted(store, ts, names);
    assert Nodes(store') == Nodes(store);
    forall r
      ensures Resolves(store', r) <==> Resolves(store, r)
      ensures StoredRefs(store', r) == StoredRefs(store, r)
    {}
    assert StoreEdges(store') == StoreEdges(store);
    assert Closed(store');
  }

  lemma CreateKeeps(store: Store, md5: Digest, t: Id, name: Id, data: Pipeline)
    requires Injective(md5) && Consistent(store, md5) && t !in store.templates && AllResolve(store, Refs(data))
    ensures Consistent(Put(store, md5, t, name, data, false), md5)
  {
    PutSnapshots(store, md5, t, name, data, false);
    PutClosed(store, md5, t, name, data, false);
    CreateAcyclic(store, md5, t, name, data);
  }

  lemma UpdateKeepsIff(store: Store, md5: Digest, t: Id, name: Id, data: Pipeline, deleted: bool)
    requires Injective(md5) && Consistent(store, md5) && t in store.templates
    requires Admissible(store, Refs(data), Some(Current(t)))
    ensures Consistent(Put(store, md5, t, name, data, deleted), md5) <==> !SelfOverLeaf(store, t, data)
  {
    AdmissibleResolves(store, Refs(data), Some(Current(t)));
    PutSnapshots(store, md5, t, name, data, deleted);
    PutClosed(store, md5, t, name, data, deleted);
    if Current(t) !in Refs(data) {
      UpdateAcyclic(store, md5, t, name, data, deleted);
    } else {
      if StoredRefs(store, Current(t)) != [] {
        SelfListedRejected(store, t, data);
      }
      SelfOverLeafCyclic(store, md5, t, name, data, deleted);
    }
  }

  /** A step keeps the store consistent exactly when it is not an update of the one family that slips through. */
  lemma StepKeepsIff(store: Store, md5: Digest, op: Op)
    requires Injective(md5) && Consistent(store, md5) && Applies(store, op)
    ensures Consistent(Step(store, md5, op), md5) <==> !Slips(store, op)
  {
    match op
    case Create(t, name, data) =>
      CreationAcceptedIff(store, data);
      if AllResolve(store, Refs(data)) {
        CreateKeeps(store, md5, t, name, data);
      }
    case Update(t, name, data) =>
      if Admissible(store, Refs(data), Some(Current(t))) {
        AdmissibleResolves(store, Refs(data), Some(Current(t)));
        UpdateKeepsIff(store, md5, t, name, data, store.templates[t].deleted);
      } else if Slips(store, op) {
        SelfOverLeafAccepted(store, t, data);
      }
    case Delete(ts, names) =>
      DeletedKeeps(store, md5, ts, names);
  }

  const EMPTY := Store(map[], map[])

  /** The store after each prefix of the operations; an operation that does not apply is not performed. */
  ghost function Run(md5: Digest, ops: seq<Op>): Store {
    if ops == [] then EMPTY else
    var store := Run(md5, ops[..|ops| - 1]);
    if Applies(store, ops[|ops| - 1]) then Step(store, md5, ops[|ops| - 1]) else store
  }

  lemma EmptyIsConsistent(md5: Digest)
    ensures Consistent(EMPTY, md5)
  {
    assert StoreEdges(EMPTY) == {};
    NoEdgesNoCycle(StoreEdges(EMPTY));
  }

  ghost predicate NoneSlips(md5: Digest, ops: seq<Op>) {
    forall n :: 0 <= n < |ops| ==> Applies(Run(md5, ops[..n]), ops[n]) ==> !Slips(Run(md5, ops[..n]), ops[n])
  }

  lemma RunSnoc(md5: Digest, ops: seq<Op>, n: nat)
    requires n < |ops|
    ensures var store := Run(md5, ops[..n]);
            Run(md5, ops[..n + 1]) == if Applies(store, ops[n]) then Step(store, md5, ops[n]) else store
  {
    assert ops[..n + 1][..n] == ops[..n];
  }

  lemma {:induction false} RunKeeps(md5: Digest, ops: seq<Op>, n: nat)
    requires Injective(md5) && n <= |ops| && NoneSlips(md5, ops)
    ensures Consistent(Run(md5, ops[..n]), md5)
  {
    if n == 0 {
      EmptyIsConsistent(md5);
    } else {
      RunKeeps(md5, ops, n - 1);
      RunSnoc(md5, ops, n - 1);
      if Applies(Run(md5, ops[..n - 1]), ops[n - 1]) {
        StepKeepsIff(Run(md5, ops[..n - 1]), md5, ops[n - 1]);
      }
    }
  }

  /** Over every run from an empty store: the reference graph stays acyclic and closed throughout exactly when
      no update lists its own template over stored data without subprocesses. */
  lemma RunConsistentIff(md5: Digest, ops: seq<Op>)
    requires Injective(md5)
    ensures (forall n :: 0 <= n <= |ops| ==> Consistent(Run(md5, ops[..n]), md5)) <==> NoneSlips(md5, ops)
  {
    if NoneSlips(md5, ops) {
      forall n | 0 <= n <= |ops| ensures Consistent(Run(md5, ops[..n]), md5) {
        RunKeeps(md5, ops, n);
      }
    }
    if forall n :: 0 <= n <= |ops| ==> Consistent(Run(md5, ops[..n]), md5) {
      forall n | 0 <= n < |ops| && Applies(Run(md5, ops[..n]), ops[n]) ensures !Slips(Run(md5, ops[..n]), ops[n]) {
        assert Consistent(Run(md5, ops[..n + 1]), md5);
        RunSnoc(md5, ops, n);
        StepKeepsIff(Run(md5, ops[..n]), md5, ops[n]);
      }
    }
  }

  /** A concrete run that ends in a cycle: a template without subprocesses is updated to contain itself. */
  lemma SelfUpdateSlips(md5: Digest)
    requires Injective(md5)
    ensures var leaf := Pipeline(0, 1, 2, [], []);
            var selfish := Pipeline(0, 1, 2, [], [Activity(3, SubProcess(Current(7), None))]);
            Cyclic(StoreEdges(Run(md5, [Create(7, 8, leaf), Update(7, 8, selfish)])))
  {
    var leaf, selfish := Pipeline(0, 1, 2, [], []), Pipeline(0, 1, 2, [], [Activity(3, SubProcess(Current(7), None))]);
    var ops := [Create(7, 8, leaf), Update(7, 8, selfish)];
    EmptyIsConsistent(md5);
    assert Refs(leaf) == [];
    CreationAcceptedIff(EMPTY, leaf);
    CreateKeeps(EMPTY, md5, 7, 8, leaf);
    var store := Put(EMPTY, md5, 7, 8, leaf, false);
    assert ops[..1] == [Create(7, 8, leaf)] && ops[..1][..0] == [];
    assert Run(md5, ops[..1]) == store;
    assert Refs(selfish) == [Current(7)];
    SelfOverLeafAccepted(store, 7, selfish);
    SelfOverLeafCyclic(store, md5, 7, 8, selfish, false);
  }

  /** The manager over the template and snapshot tables. */
  class TemplateManager {
    const md5: Digest
    var templates: map<Id, Template>
    var snapshots: map<Id, Pipeline>

    constructor (md5: Digest)
      ensures this.md5 == md5 && View() == EMPTY
    {
      this.md5 := md5;
      templates, snapshots := map[], map[];
    }

    function View(): Store
      reads this
    {
      Store(templates, snapshots)
    }

    method CreateModel(data: Pipeline, t: Id, name: Id) returns (verdict: Verdict)
      requires t !in templates
      modifies this
      ensures verdict == Accepted <==> Admissible(old(View()), Refs(data), None)
      ensures View() == Step(old(View()), md5, Create(t, name, data))
      ensures verdict != Accepted ==> templates == old(templates) && snapshots == old(snapshots)
      ensures verdict == Accepted ==>
        && templates.Keys == old(templates.Keys) + {t}
        && (forall u :: u in old(templates) ==> templates[u] == old(templates)[u])
        && templates[t].name == name && templates[t].snapshot == md5(data) && !templates[t].deleted
        && snapshots == (if md5(data) in old(snapshots) then old(snapshots) else old(snapshots)[md5(data) := data])
    {
      verdict := Validate(View(), data, None);
      if verdict == Accepted {
        CreateOrGetSnapshot(data);
        templates := templates[t := Template(name, md5(data), false)];
      }
    }

    method CreateOrGetSnapshot(data: Pipeline)
      modifies this`snapshots
      ensures snapshots == if md5(data) in old(snapshots) then old(snapshots) else old(snapshots)[md5(data) := data]
    {
      if md5(data) !in snapshots {
        snapshots := snapshots[md5(data) := data];
      }
    }

    method UpdateTemplate(t: Id, data: Pipeline, name: Id) returns (verdict: Verdict)
      requires Resolves(View(), Current(t))
      modifies this
      ensures verdict == Accepted <==> Admissible(old(View()), Refs(data), Some(Current(t)))
      ensures View() == Step(old(View()), md5, Update(t, name, data))
      ensures verdict != Accepted ==> templates == old(templates) && snapshots == old(snapshots)
      ensures verdict == Accepted ==>
        && templates.Keys == old(templates.Keys)
        && (forall u :: u in templates && u != t ==> templates[u] == old(templates)[u])
        && templates[t].name == name && templates[t].snapshot == md5(data)
        && templates[t].deleted == old(templates)[t].deleted
        && snapshots == (if md5(data) in old(snapshots) then old(snapshots) else old(snapshots)[md5(data) := data])
    {
      verdict := Validate(View(), data, Some(Current(t)));
      if verdict == Accepted {
        CreateOrGetSnapshot(data);
        templates := templates[t := Template(name, md5(data), templates[t].deleted)];
      }
    }

    method DeleteModel(ts: seq<Id>, names: map<Id, Id>)
      modifies this`templates
      ensures View() == Step(old(View()), md5, Delete(ts, names))
      ensures templates.Keys == old(templates.Keys) && snapshots == old(snapshots)
      ensures forall t :: t in templates && t !in ts ==> templates[t] == old(templates)[t]
      ensures forall t :: t in templates && t in ts ==>
        && templates[t].deleted && templates[t].snapshot == old(templates)[t].snapshot
        && templates[t].name == if t in names then names[t] else old(templates)[t].name
    {
      for i := 0 to |ts|
        invariant View() == Deleted(old(View()), ts[..i], names)
      {
        if ts[i] in templates {
          var template := templates[ts[i]];
          templates := templates[ts[i] :=
            Template(if ts[i] in names then names[ts[i]] else template.name, template.snapshot, true)];
        }
        assert ts[..i + 1] == ts[..i] + [ts[i]];
      }
      assert ts[..|ts|] == ts;
    }
  }
}
