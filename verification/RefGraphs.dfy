/** pipeline/models.py: the reference graph built for a validation, and its cycle check. */
module RefGraphs {
  import opened BreadthFirst
  import opened CycleSearch
  import opened Options
  import opened Templates
  import opened Walks
  import opened Worklists

  datatype Built = Built(order: seq<Ref>, graph: map<Ref, seq<Ref>>) | NoTemplate | NoSnapshot

  // ----- what the graph should list -----

  function RootSet(root: Option<Ref>): set<Ref> {
    if root.Some? then {root.value} else {}
  }

  /** What the graph lists for a reference: its stored references; for the root, the new data's, unless the
      new data names the root itself, for then the stored data of the root is read as well. */
  function Listed(store: Store, first: seq<Ref>, root: Option<Ref>, r: Ref): set<Ref> {
    if root != Some(r) then Elements(StoredRefs(store, r))
    else if r !in first then Elements(first)
    else if StoredRefs(store, r) == [] then {}
    else Elements(first) + Elements(StoredRefs(store, r))
  }

  function ListedEdges(store: Store, first: seq<Ref>, root: Option<Ref>): set<(Ref, Ref)> {
    set r, s | r in Nodes(store) + RootSet(root) && s in Listed(store, first, root, r) :: (r, s)
  }

  ghost predicate Reached(store: Store, first: seq<Ref>, root: Option<Ref>, r: Ref) {
    exists w :: Walk(ListedEdges(store, first, root), w) && w[0] in first && w[|w| - 1] == r
  }

  // ----- the loop -----

  /** The loop's state; `popped` is the set of dequeued references. */
  ghost predicate Lists(store: Store, first: seq<Ref>, root: Option<Ref>, popped: set<Ref>, graph: map<Ref, seq<Ref>>) {
    && graph.Keys == popped + RootSet(root)
    && forall k :: k in graph ==>
         Elements(graph[k]) == if k in popped then Listed(store, first, root, k) else Elements(first)
  }

  ghost predicate Pending(store: Store, first: seq<Ref>, root: Option<Ref>, popped: set<Ref>, queue: seq<Ref>) {
    && Elements(first) <= popped + Elements(queue)
    && Children(store, popped) <= popped + RootSet(root) + Elements(queue)
  }

  function Children(store: Store, nodes: set<Ref>): set<Ref> {
    set k, s | k in nodes && s in StoredRefs(store, k) :: s
  }

  ghost predicate AllReached(store: Store, first: seq<Ref>, root: Option<Ref>, popped: set<Ref>, queue: seq<Ref>) {
    && popped <= Nodes(store)
    && forall r :: r in popped + Elements(queue) ==> Reached(store, first, root, r)
  }

  /** Everything a queue can come to hold. */
  function Universe(store: Store, first: seq<Ref>, root: Option<Ref>): set<Ref> {
    Elements(first) + RootSet(root) + set v, s | v in store.snapshots && s in Refs(store.snapshots[v]) :: s
  }

  lemma StoredInUniverse(store: Store, first: seq<Ref>, root: Option<Ref>, r: Ref)
    ensures Elements(StoredRefs(store, r)) <= Universe(store, first, root)
  {}

  /** One entry of the graph after its reference is dequeued (again). */
  function EntryAfter(entry: seq<Ref>, stored: seq<Ref>): seq<Ref> {
    if stored == [] then [] else entry + stored
  }

  lemma ListsStep(store: Store, first: seq<Ref>, root: Option<Ref>, popped: set<Ref>, graph: map<Ref, seq<Ref>>, r: Ref)
    requires Lists(store, first, root, popped, graph)
    requires root == Some(r) ==> r in first
    ensures var entry := if r in graph then graph[r] else [];
            Lists(store, first, root, popped + {r}, graph[r := EntryAfter(entry, StoredRefs(store, r))])
  {}

  lemma PendingStep(store: Store, first: seq<Ref>, root: Option<Ref>, popped: set<Ref>, queue: seq<Ref>)
    requires Pending(store, first, root, popped, queue) && queue != []
    ensures var r := queue[0];
            Pending(store, first, root, popped + {r},
                    queue[1..] + Unmarked(StoredRefs(store, r), popped + {r} + RootSet(root)))
  {
    var r, stored := queue[0], StoredRefs(store, queue[0]);
    QueueStep(queue, stored, popped + {r} + RootSet(root));
    assert Children(store, popped + {r}) == Children(store, popped) + Elements(stored);
  }

  lemma QueueStep(queue: seq<Ref>, stored: seq<Ref>, marked: set<Ref>)
    requires queue != []
    ensures Elements(queue[1..] + Unmarked(stored, marked)) + marked == Elements(queue[1..]) + Elements(stored) + marked
    ensures Elements(queue) == {queue[0]} + Elements(queue[1..])
  {}

  lemma ReachedStep(store: Store, first: seq<Ref>, root: Option<Ref>, r: Ref, s: Ref)
    requires Reached(store, first, root, r) && r in Nodes(store) && s in Listed(store, first, root, r)
    ensures Reached(store, first, root, s)
  {
    var w :| Walk(ListedEdges(store, first, root), w) && w[0] in first && w[|w| - 1] == r;
    WalkAppend(ListedEdges(store, first, root), w, s);
    assert (w + [s])[|w + [s]| - 1] == s;
  }

  lemma AllReachedStep(store: Store, first: seq<Ref>, root: Option<Ref>, popped: set<Ref>, queue: seq<Ref>)
    requires AllReached(store, first, root, popped, queue) && queue != [] && queue[0] in Nodes(store)
    requires root == Some(queue[0]) ==> queue[0] in first
    ensures var r := queue[0];
            AllReached(store, first, root, popped + {r},
                       queue[1..] + Unmarked(StoredRefs(store, r), popped + {r} + RootSet(root)))
  {
    var r := queue[0];
    var more := Unmarked(StoredRefs(store, r), popped + {r} + RootSet(root));
    UnmarkedElements(StoredRefs(store, r), popped + {r} + RootSet(root));
    ElementsConcat(queue[1..], more);
    assert Elements(queue) == {r} + Elements(queue[1..]);
    forall s | s in Elements(more) ensures Reached(store, first, root, s) {
      ReachedStep(store, first, root, r, s);
    }
  }

  /** A dequeuing lowers (unlisted references, queued listed references) lexicographically. */
  lemma MeasureStep(universe: set<Ref>, keys: set<Ref>, queue: seq<Ref>, stored: seq<Ref>)
    requires queue != [] && queue[0] in universe
    ensures var keys', queue' := keys + {queue[0]}, queue[1..] + Unmarked(stored, keys + {queue[0]});
            || |universe - keys'| < |universe - keys|
            || (keys' == keys && Stale(queue', keys') < Stale(queue, keys))
  {
    var r := queue[0];
    if r in keys {
      assert keys + {r} == keys;
      UnmarkedElements(stored, keys);
      StaleAppend(queue[1..], Unmarked(stored, keys), keys);
    } else {
      assert universe - (keys + {r}) == (universe - keys) - {r};
    }
  }

  /** setdefault, append, and queue the reference unless it is listed already. */
  method ListRef(graph: map<Ref, seq<Ref>>, order: seq<Ref>, queue: seq<Ref>, r: Ref, ref: Ref)
    returns (graph': map<Ref, seq<Ref>>, order': seq<Ref>, queue': seq<Ref>)
    requires Elements(order) == graph.Keys
    ensures graph' == Extended(graph, r, [ref]) && Elements(order') == graph'.Keys
    ensures queue' == queue + if ref in graph.Keys + {r} then [] else [ref]
  {
    graph', order', queue' := graph, order, queue;
    if r !in graph {
      graph', order' := graph[r := []], order + [r];
      ElementsSnoc(order, r);
    }
    graph' := graph'[r := graph'[r] + [ref]];
    if ref !in graph' {
      queue' := queue + [ref];
    }
  }

  /** The loop over one template's subprocess nodes. */
  method ListRefs(graph: map<Ref, seq<Ref>>, order: seq<Ref>, queue: seq<Ref>, r: Ref, refs: seq<Ref>)
    returns (graph': map<Ref, seq<Ref>>, order': seq<Ref>, queue': seq<Ref>)
    requires Elements(order) == graph.Keys
    ensures graph' == graph[r := EntryAfter(if r in graph then graph[r] else [], refs)]
    ensures Elements(order') == graph'.Keys
    ensures queue' == queue + Unmarked(refs, graph.Keys + {r})
  {
    graph', order', queue' := graph, order, queue;
    for i := 0 to |refs|
      invariant graph' == Extended(graph, r, refs[..i]) && Elements(order') == graph'.Keys
      invariant queue' == queue + Unmarked(refs[..i], graph.Keys + {r})
    {
      ExtendedSnoc(graph, r, refs[..i], refs[i]);
      UnmarkedSnoc(refs[..i], refs[i], graph.Keys + {r});
      assert refs[..i + 1] == refs[..i] + [refs[i]];
      graph', order', queue' := ListRef(graph', order', queue', r, refs[i]);
    }
    assert refs[..|refs|] == refs;
    if refs == [] {
      if r !in graph {
        ElementsSnoc(order, r);
        order' := order + [r];
      }
      graph' := graph[r := []];
    }
  }

  /** setdefault and append, once for each reference. */
  function Extended(graph: map<Ref, seq<Ref>>, r: Ref, refs: seq<Ref>): map<Ref, seq<Ref>> {
    if refs == [] then graph else graph[r := (if r in graph then graph[r] else []) + refs]
  }

  lemma ExtendedSnoc(graph: map<Ref, seq<Ref>>, r: Ref, refs: seq<Ref>, ref: Ref)
    ensures Extended(graph, r, refs + [ref]) == Extended(Extended(graph, r, refs), r, [ref])
    ensures Extended(graph, r, refs).Keys + {r} == graph.Keys + {r}
  {
    var entry := if r in graph then graph[r] else [];
    if refs == [] {
      assert refs + [ref] == [ref];
    } else {
      assert entry + (refs + [ref]) == entry + refs + [ref];
      assert graph[r := entry + refs][r := entry + refs + [ref]] == graph[r := entry + refs + [ref]];
    }
  }

  // ----- the whole construction -----

  /** Everything the main loop maintains. */
  ghost predicate LoopState(store: Store, first: seq<Ref>, root: Option<Ref>, popped: set<Ref>,
                            graph: map<Ref, seq<Ref>>, queue: seq<Ref>)
  {
    && Lists(store, first, root, popped, graph)
    && Pending(store, first, root, popped, queue)
    && AllReached(store, first, root, popped, queue)
    && (popped + Elements(queue)) * RootSet(root) <= Elements(first)
    && popped + Elements(queue) <= Universe(store, first, root)
  }

  lemma LoopStart(store: Store, first: seq<Ref>, root: Option<Ref>, graph: map<Ref, seq<Ref>>)
    requires graph == if root.Some? then map[root.value := first] else map[]
    ensures LoopState(store, first, root, {}, graph, first)
  {
    forall r | r in first ensures Reached(store, first, root, r) {
      assert Walk(ListedEdges(store, first, root), [r]);
    }
  }

  /** The loop's variables, with the set of dequeued references. */
  datatype Building = Building(popped: set<Ref>, graph: map<Ref, seq<Ref>>, queue: seq<Ref>)

  function BuildNext(store: Store, b: Building): Building
    requires b.queue != []
  {
    var r, stored := b.queue[0], StoredRefs(store, b.queue[0]);
    Building(b.popped + {r}, b.graph[r := EntryAfter(if r in b.graph then b.graph[r] else [], stored)],
             b.queue[1..] + Unmarked(stored, b.graph.Keys + {r}))
  }

  /** The variables after some turns, none of which met a reference that does not resolve. */
  function BuildAfter(store: Store, first: seq<Ref>, root: Option<Ref>, turns: nat): Building {
    if turns == 0 then Building({}, if root.Some? then map[root.value := first] else map[], first) else
    var b := BuildAfter(store, first, root, turns - 1);
    if b.queue == [] || !Resolves(store, b.queue[0]) then b else BuildNext(store, b)
  }

  ghost predicate Sound(store: Store, first: seq<Ref>, root: Option<Ref>, b: Building) {
    LoopState(store, first, root, b.popped, b.graph, b.queue)
  }

  lemma BoundsStep(store: Store, first: seq<Ref>, root: Option<Ref>, b: Building)
    requires b.queue != [] && b.graph.Keys == b.popped + RootSet(root)
    requires (b.popped + Elements(b.queue)) * RootSet(root) <= Elements(first)
    requires b.popped + Elements(b.queue) <= Universe(store, first, root)
    ensures var b' := BuildNext(store, b);
            && (b'.popped + Elements(b'.queue)) * RootSet(root) <= Elements(first)
            && b'.popped + Elements(b'.queue) <= Universe(store, first, root)
  {
    var r, marked := b.queue[0], b.graph.Keys + {b.queue[0]};
    StoredInUniverse(store, first, root, r);
    UnmarkedElements(StoredRefs(store, r), marked);
    ElementsConcat(b.queue[1..], Unmarked(StoredRefs(store, r), marked));
    assert Elements(b.queue) == {r} + Elements(b.queue[1..]);
  }

  lemma SoundStep(store: Store, first: seq<Ref>, root: Option<Ref>, b: Building)
    requires Sound(store, first, root, b) && b.queue != [] && Resolves(store, b.queue[0])
    ensures Sound(store, first, root, BuildNext(store, b))
  {
    var r := b.queue[0];
    NodesResolve(store, r);
    assert r in Elements(b.queue);
    assert root == Some(r) ==> r in RootSet(root);
    assert b.graph.Keys + {r} == b.popped + {r} + RootSet(root);
    ListsStep(store, first, root, b.popped, b.graph, r);
    PendingStep(store, first, root, b.popped, b.queue);
    AllReachedStep(store, first, root, b.popped, b.queue);
    BoundsStep(store, first, root, b);
  }

  lemma SoundNext(store: Store, first: seq<Ref>, root: Option<Ref>, b: Building, b': Building)
    requires Sound(store, first, root, b)
    requires b' == if b.queue == [] || !Resolves(store, b.queue[0]) then b else BuildNext(store, b)
    ensures Sound(store, first, root, b')
  {
    if b.queue != [] && Resolves(store, b.queue[0]) {
      SoundStep(store, first, root, b);
    }
  }

  lemma {:induction false} SoundAfter(store: Store, first: seq<Ref>, root: Option<Ref>, turns: nat)
    ensures Sound(store, first, root, BuildAfter(store, first, root, turns))
  {
    if turns == 0 {
      LoopStart(store, first, root, BuildAfter(store, first, root, 0).graph);
    } else {
      SoundAfter(store, first, root, turns - 1);
      SoundNext(store, first, root, BuildAfter(store, first, root, turns - 1), BuildAfter(store, first, root, turns));
    }
  }

  ghost predicate Lower(universe: set<Ref>, b': Building, b: Building) {
    || |universe - b'.graph.Keys| < |universe - b.graph.Keys|
    || (b'.graph.Keys == b.graph.Keys && Stale(b'.queue, b'.graph.Keys) < Stale(b.queue, b.graph.Keys))
  }

  lemma HeadReached(store: Store, first: seq<Ref>, root: Option<Ref>, b: Building)
    requires Sound(store, first, root, b) && b.queue != []
    ensures Reached(store, first, root, b.queue[0]) && b.queue[0] in Universe(store, first, root)
  {}

  lemma TurnLowers(store: Store, universe: set<Ref>, b: Building)
    requires b.queue != [] && b.queue[0] in universe
    ensures Lower(universe, BuildNext(store, b), b)
  {
    MeasureStep(universe, b.graph.Keys, b.queue, StoredRefs(store, b.queue[0]));
    assert BuildNext(store, b).graph.Keys == b.graph.Keys + {b.queue[0]};
  }

  /** The loop ends: on an empty queue, or on a reference that does not resolve. */
  predicate Stopped(store: Store, b: Building) {
    b.queue == [] || !Resolves(store, b.queue[0])
  }

  lemma {:induction false} StopsFrom(store: Store, first: seq<Ref>, root: Option<Ref>, turns: nat, b: Building)
    returns (n: nat)
    requires b == BuildAfter(store, first, root, turns)
    ensures turns <= n && Stopped(store, BuildAfter(store, first, root, n))
    decreases |Universe(store, first, root) - b.graph.Keys|, Stale(b.queue, b.graph.Keys)
  {
    if Stopped(store, b) {
      n := turns;
    } else {
      SoundAfter(store, first, root, turns);
      HeadReached(store, first, root, b);
      TurnLowers(store, Universe(store, first, root), b);
      n := StopsFrom(store, first, root, turns + 1, BuildNext(store, b));
    }
  }

  /** However the references circle, the loop takes finitely many turns. */
  lemma Stops(store: Store, first: seq<Ref>, root: Option<Ref>) returns (n: nat)
    ensures Stopped(store, BuildAfter(store, first, root, n))
  {
    n := StopsFrom(store, first, root, 0, BuildAfter(store, first, root, 0));
  }

  lemma OneMore(store: Store, first: seq<Ref>, root: Option<Ref>, turns: nat, last: nat, b: Building)
    requires BuildAfter(store, first, root, turns) == b && !Stopped(store, b)
    requires turns <= last && Stopped(store, BuildAfter(store, first, root, last))
    ensures turns < last && BuildAfter(store, first, root, turns + 1) == BuildNext(store, b)
  {}

  lemma UnresolvedHead(store: Store, first: seq<Ref>, root: Option<Ref>, turns: nat)
    requires var b := BuildAfter(store, first, root, turns); b.queue != [] && !Resolves(store, b.queue[0])
    ensures ReachesUnresolved(store, first, root,
                              BuildAfter(store, first, root, turns).queue[0].template !in store.templates)
  {
    SoundAfter(store, first, root, turns);
    HeadReached(store, first, root, BuildAfter(store, first, root, turns));
  }

  /** The graph is exactly the part of the listed references that the new data reaches. */
  ghost predicate IsRefGraph(store: Store, first: seq<Ref>, root: Option<Ref>, graph: map<Ref, seq<Ref>>) {
    && (forall r :: r in graph <==> root == Some(r) || Reached(store, first, root, r))
    && (forall r :: r in graph ==> Elements(graph[r]) == Listed(store, first, root, r))
    && (forall r :: r in graph ==> graph.Keys >= Listed(store, first, root, r))
  }

  lemma LoopEnd(store: Store, first: seq<Ref>, root: Option<Ref>, popped: set<Ref>, graph: map<Ref, seq<Ref>>)
    requires Sound(store, first, root, Building(popped, graph, []))
    ensures IsRefGraph(store, first, root, graph)
    ensures forall r :: r in graph && root != Some(r) ==> r in Nodes(store)
  {
    assert Elements<Ref>([]) == {};
    forall r | r in graph
      ensures Elements(graph[r]) == Listed(store, first, root, r)
      ensures Listed(store, first, root, r) <= graph.Keys
    {
      if root == Some(r) && r !in popped {
        assert r !in first;
      }
      if r in popped {
        assert Elements(StoredRefs(store, r)) <= Children(store, popped);
      }
    }
    forall r | Reached(store, first, root, r) ensures r in graph {
      var edges := ListedEdges(store, first, root);
      var w :| Walk(edges, w) && w[0] in first && w[|w| - 1] == r;
      assert w[0] in Elements(first);
      WalkStays(edges, graph.Keys, w);
    }
  }

  /** Some reference that the new data reaches has no template, or no stored version. */
  ghost predicate ReachesUnresolved(store: Store, first: seq<Ref>, root: Option<Ref>, noTemplate: bool) {
    exists r :: Reached(store, first, root, r) && !Resolves(store, r)
            && (r.template !in store.templates <==> noTemplate)
  }

  /** What holds when the queue is empty. */
  lemma AfterLoop(store: Store, first: seq<Ref>, root: Option<Ref>, turns: nat, graph: map<Ref, seq<Ref>>)
    requires BuildAfter(store, first, root, turns).queue == []
    requires graph == BuildAfter(store, first, root, turns).graph
    ensures IsRefGraph(store, first, root, graph)
    ensures forall r :: r in graph && root != Some(r) ==> r in Nodes(store)
  {
    SoundAfter(store, first, root, turns);
    LoopEnd(store, first, root, BuildAfter(store, first, root, turns).popped, graph);
  }

  /** The variables are those of the loop after the given number of turns. */
  ghost predicate At(store: Store, first: seq<Ref>, root: Option<Ref>, turns: nat,
                     graph: map<Ref, seq<Ref>>, queue: seq<Ref>)
  {
    var b := BuildAfter(store, first, root, turns);
    b.graph == graph && b.queue == queue
  }

  /** One turn of the main loop, on a reference that resolves. */
  method Take(store: Store, ghost first: seq<Ref>, ghost root: Option<Ref>, ghost turns: nat, ghost last: nat,
              graph: map<Ref, seq<Ref>>, order: seq<Ref>, queue: seq<Ref>)
    returns (graph': map<Ref, seq<Ref>>, order': seq<Ref>, queue': seq<Ref>)
    requires queue != [] && Resolves(store, queue[0]) && Elements(order) == graph.Keys
    requires At(store, first, root, turns, graph, queue)
    requires turns <= last && Stopped(store, BuildAfter(store, first, root, last))
    ensures At(store, first, root, turns + 1, graph', queue') && turns < last
    ensures Elements(order') == graph'.Keys
  {
    OneMore(store, first, root, turns, last, BuildAfter(store, first, root, turns));
    graph', order', queue' := ListRefs(graph, order, queue[1..], queue[0], Refs(DataOf(store, queue[0])));
  }

  method Construct(store: Store, data: Pipeline, root: Option<Ref>) returns (built: Built)
    ensures built.NoTemplate? ==> ReachesUnresolved(store, Refs(data), root, true)
    ensures built.NoSnapshot? ==> ReachesUnresolved(store, Refs(data), root, false)
    ensures built.Built? ==> Elements(built.order) == built.graph.Keys
    ensures built.Built? ==> IsRefGraph(store, Refs(data), root, built.graph)
    ensures built.Built? ==> forall r :: r in built.graph && root != Some(r) ==> r in Nodes(store)
  {
    var first := Refs(data);
    var graph: map<Ref, seq<Ref>> := if root.Some? then map[root.value := first] else map[];
    var order := if root.Some? then [root.value] else [];
    var queue := first;
    ghost var turns: nat := 0;
    ghost var last := Stops(store, first, root);
    while queue != []
      invariant At(store, first, root, turns, graph, queue) && turns <= last
      invariant Elements(order) == graph.Keys
      decreases last - turns
    {
      if !Resolves(store, queue[0]) {
        UnresolvedHead(store, first, root, turns);
        return if queue[0].template !in store.templates then NoTemplate else NoSnapshot;
      }
      graph, order, queue := Take(store, first, root, turns, last, graph, order, queue);
      turns := turns + 1;
    }
    AfterLoop(store, first, root, turns, graph);
    return Built(order, graph);
  }
}
