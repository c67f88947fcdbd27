/** pipeline/models.py: the template tables and what template data refers to. */
module Templates {
  import opened Options
  import opened Walks

  /** A reference to a template: its current data, or the data of a pinned version. */
  datatype Ref = Current(template: Id) | Pinned(template: Id, version: Id)

  datatype Kind = Service | SubProcess(ref: Ref, embedded: Option<Pipeline>)

  datatype Activity = Activity(id: Id, kind: Kind)

  datatype Pipeline = Pipeline(id: Id, startEvent: Id, endEvent: Id, gateways: seq<Id>, activities: seq<Activity>)

  datatype Template = Template(name: Id, snapshot: Id, deleted: bool)

  /** The template table and the snapshot table, which is keyed by the digest of the data. */
  datatype Store = Store(templates: map<Id, Template>, snapshots: map<Id, Pipeline>)

  /** The references of a pipeline's subprocess nodes, in order. */
  function RefsIn(activities: seq<Activity>): seq<Ref> {
    if activities == [] then [] else
    (if activities[0].kind.SubProcess? then [activities[0].kind.ref] else []) + RefsIn(activities[1..])
  }

  function Refs(data: Pipeline): seq<Ref> {
    RefsIn(data.activities)
  }

  predicate Resolves(store: Store, r: Ref) {
    r.template in store.templates
    && match r
       case Current(t) => store.templates[t].snapshot in store.snapshots
       case Pinned(_, v) => v in store.snapshots
  }

  /** The references that resolve: a known template, at its current data or at a stored version. */
  function Nodes(store: Store): set<Ref> {
    (set t | t in store.templates && store.templates[t].snapshot in store.snapshots :: Current(t))
    + (set t, v | t in store.templates && v in store.snapshots :: Pinned(t, v))
  }

  lemma NodesResolve(store: Store, r: Ref)
    ensures r in Nodes(store) <==> Resolves(store, r)
  {}

  /** data_for_version on the referenced template. */
  function DataOf(store: Store, r: Ref): Pipeline
    requires Resolves(store, r)
  {
    match r
    case Current(t) => store.snapshots[store.templates[t].snapshot]
    case Pinned(_, v) => store.snapshots[v]
  }

  /** The references of the data that a reference stands for. */
  function StoredRefs(store: Store, r: Ref): seq<Ref> {
    if Resolves(store, r) then Refs(DataOf(store, r)) else []
  }

  /** The reference graph of the whole store. */
  function StoreEdges(store: Store): set<(Ref, Ref)> {
    set r, s | r in Nodes(store) && s in StoredRefs(store, r) :: (r, s)
  }

  /** Every template has data, and every stored reference resolves. */
  ghost predicate Closed(store: Store) {
    && (forall t :: t in store.templates ==> store.templates[t].snapshot in store.snapshots)
    && (forall v, s :: v in store.snapshots && s in Refs(store.snapshots[v]) ==> Resolves(store, s))
  }

  ghost predicate Acyclic(store: Store) {
    !Cyclic(StoreEdges(store))
  }

  lemma ClosedEdges(store: Store, r: Ref, s: Ref)
    requires Closed(store) && s in StoredRefs(store, r)
    ensures Resolves(store, s)
  {}
}
