/** pipeline/models.py: writers that read the tables first and save a row later, in separate steps of many callers. */
module TemplateRaces {
  import opened Options
  import opened RefGraphs
  import opened TemplateManagers
  import opened TemplateRuns
  import opened Templates
  import opened Walks

  /** What a call is about to save: the row of a new template, or of one that it loaded before. */
  datatype Row = NewRow(t: Id, name: Id, data: Pipeline) | OldRow(t: Id, name: Id, data: Pipeline)

  /** A creation or update is accepted first and saved later. A deletion loads a row first and saves it later, with
      the data that it had when it was loaded. Either saves the whole row, with whatever deleted flag it carries. */
  datatype Event = Accept(call: Id, row: Row) | Load(call: Id, t: Id, name: Id) | Save(call: Id, deleted: bool)

  /** The store, and what the calls are about to save. */
  datatype World = World(store: Store, pending: map<Id, Row>)

  /** Created ids are fresh, and rows are not removed. */
  predicate Fits(store: Store, row: Row) {
    row.NewRow? <==> row.t !in store.templates
  }

  function RootOf(row: Row): Option<Ref> {
    if row.NewRow? then None else Some(Current(row.t))
  }

  /** What a validation that reads everything at once accepts. */
  ghost predicate Accepts(store: Store, row: Row) {
    Fits(store, row) && Admissible(store, Refs(row.data), RootOf(row))
  }

  /** A validation reads the references one by one, while others save. Whatever it makes of them, it accepts nothing
      with a reference that it did not resolve. */
  ghost predicate MayAccept(store: Store, row: Row) {
    Fits(store, row) && AllResolve(store, Refs(row.data))
  }

  function Saved(store: Store, md5: Digest, row: Row, deleted: bool): Store {
    Put(store, md5, row.t, row.name, row.data, row.OldRow? && deleted)
  }

  ghost predicate CanSave(w: World, c: Id) {
    c in w.pending && Fits(w.store, w.pending[c])
  }

  ghost function Next(w: World, md5: Digest, e: Event): World {
    match e
    case Accept(c, row) => if MayAccept(w.store, row) then w.(pending := w.pending[c := row]) else w
    case Load(c, t, name) =>
      if Resolves(w.store, Current(t)) then
        w.(pending := w.pending[c := OldRow(t, name, DataOf(w.store, Current(t)))])
      else w
    case Save(c, deleted) =>
      if CanSave(w, c) then World(Saved(w.store, md5, w.pending[c], deleted), w.pending - {c}) else w
  }

  ghost function RunFrom(w: World, md5: Digest, events: seq<Event>): World {
    if events == [] then w else Next(RunFrom(w, md5, events[..|events| - 1]), md5, events[|events| - 1])
  }

  const NEW_WORLD := World(EMPTY, map[])

  // ----- what one save does -----

  /** The data leads back to the template that it is saved for, as the store is now. */
  ghost predicate Closes(store: Store, row: Row) {
    row.OldRow? && (Current(row.t) in Refs(row.data) || Leads(store, Refs(row.data), Current(row.t)))
  }

  /** A way back closes a cycle. */
  lemma WayBackCloses(store: Store, md5: Digest, t: Id, name: Id, data: Pipeline, deleted: bool)
    requires Injective(md5) && Consistent(store, md5) && t in store.templates && Leads(store, Refs(data), Current(t))
    ensures Cyclic(StoreEdges(Put(store, md5, t, name, data, deleted)))
  {
    var edges, edges' := StoreEdges(store), StoreEdges(Put(store, md5, t, name, data, deleted));
    var w :| Walk(edges, w) && w[0] in Refs(data) && w[|w| - 1] == Current(t);
    var p := FirstVisit(edges, w, Current(t));
    var cycle := [Current(t)] + p;
    forall i | 0 <= i < |cycle| - 1 ensures (cycle[i], cycle[i + 1]) in edges' {
      if i == 0 {
        NewEdge(store, md5, t, name, data, deleted, p[0]);
      } else {
        assert (p[i - 1], p[i]) in edges && p[i - 1] == p[..|p| - 1][i - 1];
        OldEdge(store, md5, t, name, data, deleted, p[i - 1], p[i]);
      }
    }
    assert ClosedWalk(edges', cycle);
  }

  lemma NewEdge(store: Store, md5: Digest, t: Id, name: Id, data: Pipeline, deleted: bool, s: Ref)
    requires Injective(md5) && Consistent(store, md5) && t in store.templates && s in Refs(data)
    ensures (Current(t), s) in StoreEdges(Put(store, md5, t, name, data, deleted))
  {
    PutKeeps(store, md5, t, name, data, deleted, Current(t));
    NodesResolve(Put(store, md5, t, name, data, deleted), Current(t));
  }

  lemma OldEdge(store: Store, md5: Digest, t: Id, name: Id, data: Pipeline, deleted: bool, r: Ref, s: Ref)
    requires Injective(md5) && Consistent(store, md5) && (r, s) in StoreEdges(store) && r != Current(t)
    ensures (r, s) in StoreEdges(Put(store, md5, t, name, data, deleted))
  {
    NodesResolve(store, r);
    PutKeeps(store, md5, t, name, data, deleted, r);
    NodesResolve(Put(store, md5, t, name, data, deleted), r);
  }

  lemma OldRowKeepsIff(store: Store, md5: Digest, t: Id, name: Id, data: Pipeline, deleted: bool)
    requires Injective(md5) && Consistent(store, md5) && t in store.templates && AllResolve(store, Refs(data))
    ensures Consistent(Put(store, md5, t, name, data, deleted), md5) <==> !Closes(store, OldRow(t, name, data))
  {
    if Current(t) in Refs(data) {
      SelfOverLeafCyclic(store, md5, t, name, data, deleted);
    } else if Leads(store, Refs(data), Current(t)) {
      WayBackCloses(store, md5, t, name, data, deleted);
    } else {
      AcceptedIff(store, data, t);
      UpdateKeepsIff(store, md5, t, name, data, deleted);
    }
  }

  /** A save keeps the store closed and acyclic exactly when its data does not lead back to its template now. */
  lemma SaveKeepsIff(store: Store, md5: Digest, row: Row, deleted: bool)
    requires Injective(md5) && Consistent(store, md5) && MayAccept(store, row)
    ensures Consistent(Saved(store, md5, row, deleted), md5) <==> !Closes(store, row)
  {
    match row
    case NewRow(t, name, data) => CreateKeeps(store, md5, t, name, data);
    case OldRow(t, name, data) => OldRowKeepsIff(store, md5, t, name, data, deleted);
  }

  /** It closes a cycle exactly when a validation at the time of the save would refuse the data, or the data lists its
      own template over stored data without subprocesses, which the validation lets through. */
  lemma ClosesIffRefused(store: Store, md5: Digest, t: Id, name: Id, data: Pipeline)
    requires Consistent(store, md5) && AllResolve(store, Refs(data))
    ensures Closes(store, OldRow(t, name, data))
       <==> !Admissible(store, Refs(data), Some(Current(t))) || SelfOverLeaf(store, t, data)
  {
    if Current(t) !in Refs(data) {
      AcceptedIff(store, data, t);
    } else if StoredRefs(store, Current(t)) != [] {
      SelfListedRejected(store, t, data);
    }
  }

  // ----- what every interleaving keeps -----

  /** Snapshots stay filed, stored references go on resolving, and so does what is about to be saved. */
  ghost predicate Sound(w: World, md5: Digest) {
    && Filed(w.store, md5) && Closed(w.store)
    && forall c :: c in w.pending ==> AllResolve(w.store, Refs(w.pending[c].data))
  }

  lemma AcceptedResolves(store: Store, row: Row)
    requires Accepts(store, row)
    ensures MayAccept(store, row)
  {
    AdmissibleResolves(store, Refs(row.data), RootOf(row));
  }

  lemma NextSound(w: World, md5: Digest, e: Event)
    requires Injective(md5) && Sound(w, md5)
    ensures Sound(Next(w, md5, e), md5)
    ensures forall r :: Resolves(w.store, r) ==> Resolves(Next(w, md5, e).store, r)
  {
    if e.Save? && CanSave(w, e.call) {
      var row := w.pending[e.call];
      var flag := row.OldRow? && e.deleted;
      PutSnapshots(w.store, md5, row.t, row.name, row.data, flag);
      PutClosed(w.store, md5, row.t, row.name, row.data, flag);
      forall r | Resolves(w.store, r) ensures Resolves(Saved(w.store, md5, row, e.deleted), r) {
        PutKeeps(w.store, md5, row.t, row.name, row.data, flag, r);
      }
    }
  }

  lemma RunSnoc(md5: Digest, events: seq<Event>, n: nat)
    requires n < |events|
    ensures RunFrom(NEW_WORLD, md5, events[..n + 1]) == Next(RunFrom(NEW_WORLD, md5, events[..n]), md5, events[n])
  {
    assert events[..n + 1][..n] == events[..n];
  }

  lemma {:induction false} RunSound(md5: Digest, events: seq<Event>, n: nat)
    requires Injective(md5) && n <= |events|
    ensures Sound(RunFrom(NEW_WORLD, md5, events[..n]), md5)
  {
    if n > 0 {
      RunSound(md5, events, n - 1);
      RunSnoc(md5, events, n - 1);
      NextSound(RunFrom(NEW_WORLD, md5, events[..n - 1]), md5, events[n - 1]);
    }
  }

  /** What a validation has read resolved still resolves when it ends, and ever after. */
  lemma {:induction false} ResolvesForGood(md5: Digest, events: seq<Event>, i: nat, n: nat, r: Ref)
    requires Injective(md5) && i <= n <= |events| && Resolves(RunFrom(NEW_WORLD, md5, events[..i]).store, r)
    ensures Resolves(RunFrom(NEW_WORLD, md5, events[..n]).store, r)
  {
    if i < n {
      ResolvesForGood(md5, events, i, n - 1, r);
      RunSound(md5, events, n - 1);
      RunSnoc(md5, events, n - 1);
      NextSound(RunFrom(NEW_WORLD, md5, events[..n - 1]), md5, events[n - 1]);
    }
  }

  /** The step saves data that leads back to its template by now. */
  ghost predicate ClosesNow(w: World, e: Event) {
    e.Save? && CanSave(w, e.call) && Closes(w.store, w.pending[e.call])
  }

  lemma NextKeepsIff(w: World, md5: Digest, e: Event)
    requires Injective(md5) && Sound(w, md5) && Consistent(w.store, md5)
    ensures Consistent(Next(w, md5, e).store, md5) <==> !ClosesNow(w, e)
  {
    if e.Save? && CanSave(w, e.call) {
      SaveKeepsIff(w.store, md5, w.pending[e.call], e.deleted);
    }
  }

  ghost predicate NoneCloses(md5: Digest, events: seq<Event>) {
    forall n :: 0 <= n < |events| ==> !ClosesNow(RunFrom(NEW_WORLD, md5, events[..n]), events[n])
  }

  lemma {:induction false} RunKeeps(md5: Digest, events: seq<Event>, n: nat)
    requires Injective(md5) && n <= |events| && NoneCloses(md5, events)
    ensures Consistent(RunFrom(NEW_WORLD, md5, events[..n]).store, md5)
  {
    if n == 0 {
      EmptyIsConsistent(md5);
    } else {
      RunKeeps(md5, events, n - 1);
      RunSnoc(md5, events, n - 1);
      RunSound(md5, events, n - 1);
      NextKeepsIff(RunFrom(NEW_WORLD, md5, events[..n - 1]), md5, events[n - 1]);
    }
  }

  /** Under every interleaving the references stay closed and acyclic throughout exactly when no save meets a store
      in which its data leads back to its template. */
  lemma RaceConsistentIff(md5: Digest, events: seq<Event>)
    requires Injective(md5)
    ensures (forall n :: 0 <= n <= |events| ==> Consistent(RunFrom(NEW_WORLD, md5, events[..n]).store, md5))
       <==> NoneCloses(md5, events)
  {
    if NoneCloses(md5, events) {
      forall n | 0 <= n <= |events| ensures Consistent(RunFrom(NEW_WORLD, md5, events[..n]).store, md5) {
        RunKeeps(md5, events, n);
      }
    }
    if forall n :: 0 <= n <= |events| ==> Consistent(RunFrom(NEW_WORLD, md5, events[..n]).store, md5) {
      forall n | 0 <= n < |events| ensures !ClosesNow(RunFrom(NEW_WORLD, md5, events[..n]), events[n]) {
        assert Consistent(RunFrom(NEW_WORLD, md5, events[..n + 1]).store, md5);
        RunSnoc(md5, events, n);
        RunSound(md5, events, n);
        NextKeepsIff(RunFrom(NEW_WORLD, md5, events[..n]), md5, events[n]);
      }
    }
  }

  // ----- a call that nobody interferes with -----

  lemma TwoSteps(w: World, md5: Digest, e: Event, f: Event)
    ensures RunFrom(w, md5, [e, f]) == Next(Next(w, md5, e), md5, f)
  {
    assert [e, f][..1] == [e] && [e][..0] == [];
    assert RunFrom(w, md5, [e]) == Next(w, md5, e);
  }

  /** An accepted row is saved as one, with its snapshot, and is no longer about to be saved; all else stays. */
  lemma AcceptedIsSaved(w: World, md5: Digest, c: Id, row: Row, deleted: bool)
    requires Accepts(w.store, row)
    ensures var w' := RunFrom(w, md5, [Accept(c, row), Save(c, deleted)]);
            && w'.pending == w.pending - {c}
            && w'.store.templates
               == w.store.templates[row.t := Template(row.name, md5(row.data), row.OldRow? && deleted)]
            && w'.store.snapshots == if md5(row.data) in w.store.snapshots then w.store.snapshots
                                     else w.store.snapshots[md5(row.data) := row.data]
  {
    AcceptedResolves(w.store, row);
    TwoSteps(w, md5, Accept(c, row), Save(c, deleted));
  }

  /** That is what the call does by itself. */
  lemma CallsAreSteps(w: World, md5: Digest, c: Id, row: Row, deleted: bool)
    requires Accepts(w.store, row) && (row.OldRow? ==> deleted == w.store.templates[row.t].deleted)
    ensures RunFrom(w, md5, [Accept(c, row), Save(c, deleted)]).store
         == Step(w.store, md5, if row.NewRow? then Create(row.t, row.name, row.data)
                               else Update(row.t, row.name, row.data))
  {
    AcceptedIsSaved(w, md5, c, row, deleted);
  }

  /** And a row that is loaded and saved as deleted is deleted, with its data as it was. */
  lemma DeletionIsStep(w: World, md5: Digest, c: Id, t: Id, name: Id)
    requires Filed(w.store, md5) && Resolves(w.store, Current(t))
    ensures var w' := RunFrom(w, md5, [Load(c, t, name), Save(c, true)]);
            w'.store == Step(w.store, md5, Delete([t], map[t := name])) && w'.pending == w.pending - {c}
  {
    TwoSteps(w, md5, Load(c, t, name), Save(c, true));
    var w' := RunFrom(w, md5, [Load(c, t, name), Save(c, true)]);
    assert t in [t] && forall u :: u in [t] <==> u == t;
    assert w'.store.templates == Deleted(w.store, [t], map[t := name]).templates;
  }

  // ----- calls that cross -----

  /** Data whose one subprocess is the given template. */
  function Calling(t: Id): Pipeline {
    Pipeline(0, 1, 2, [], [Activity(3, SubProcess(Current(t), None))])
  }

  lemma CallingRefs(t: Id)
    ensures Refs(Calling(t)) == [Current(t)]
  {
    assert RefsIn(Calling(t).activities[1..]) == [];
  }

  /** A template without subprocesses leads nowhere else. */
  lemma LeafLeadsNowhere(store: Store, a: Id, b: Id)
    requires StoredRefs(store, Current(b)) == [] && a != b
    ensures !Leads(store, [Current(b)], Current(a))
  {
    forall e | e in StoreEdges(store) ensures e.0 != Current(b) {}
    forall w | Walk(StoreEdges(store), w) && w[0] == Current(b) ensures w[|w| - 1] == Current(b) {
      WalkStays(StoreEdges(store), {Current(b)}, w);
    }
  }

  /** A template may take in another that has no subprocesses. */
  lemma LeafAccepted(store: Store, md5: Digest, a: Id, b: Id, name: Id)
    requires Consistent(store, md5) && a in store.templates && b in store.templates && a != b
    requires StoredRefs(store, Current(b)) == []
    ensures Accepts(store, OldRow(a, name, Calling(b)))
  {
    CallingRefs(b);
    LeafLeadsNowhere(store, a, b);
    AcceptedIff(store, Calling(b), a);
  }

  lemma AcceptedKeeps(store: Store, md5: Digest, row: Row, deleted: bool)
    requires Injective(md5) && Consistent(store, md5) && Accepts(store, row) && row.OldRow?
    requires Current(row.t) !in Refs(row.data)
    ensures Consistent(Saved(store, md5, row, deleted), md5) && Fits(Saved(store, md5, row, deleted), row)
    ensures StoredRefs(Saved(store, md5, row, deleted), Current(row.t)) == Refs(row.data)
  {
    UpdateKeepsIff(store, md5, row.t, row.name, row.data, deleted);
    PutKeeps(store, md5, row.t, row.name, row.data, deleted, Current(row.t));
  }

  /** Data that calls a template which calls back closes a cycle. */
  lemma CallBackCloses(store: Store, md5: Digest, t: Id, s: Id, name: Id, data: Pipeline, deleted: bool)
    requires Injective(md5) && Consistent(store, md5) && t in store.templates && s in store.templates
    requires Current(s) in Refs(data) && Current(t) in StoredRefs(store, Current(s))
    ensures Cyclic(StoreEdges(Saved(store, md5, OldRow(t, name, data), deleted)))
  {
    NodesResolve(store, Current(s));
    var w := [Current(s), Current(t)];
    assert (Current(s), Current(t)) in StoreEdges(store);
    assert Walk(StoreEdges(store), w) && w[|w| - 1] == Current(t);
    WayBackCloses(store, md5, t, name, data, deleted);
  }

  lemma FourSteps(w: World, md5: Digest, e: seq<Event>)
    requires |e| >= 4
    ensures RunFrom(w, md5, e[..4]) == Next(Next(Next(Next(w, md5, e[0]), md5, e[1]), md5, e[2]), md5, e[3])
  {
    assert e[..4][..3] == e[..3] && e[..3][..2] == e[..2] && e[..2][..1] == e[..1] && e[..1][..0] == [];
    assert RunFrom(w, md5, e[..1]) == Next(w, md5, e[0]);
    assert RunFrom(w, md5, e[..2]) == Next(RunFrom(w, md5, e[..1]), md5, e[1]);
    assert RunFrom(w, md5, e[..3]) == Next(RunFrom(w, md5, e[..2]), md5, e[2]);
  }

  /** Two updates are both validated before either is saved: each template ends up in the other. */
  lemma CrossedUpdatesClose(w: World, md5: Digest, a: Id, b: Id, name: Id)
    requires Injective(md5) && Consistent(w.store, md5) && a in w.store.templates && b in w.store.templates && a != b
    requires StoredRefs(w.store, Current(a)) == [] && StoredRefs(w.store, Current(b)) == []
    ensures var one, two := OldRow(a, name, Calling(b)), OldRow(b, name, Calling(a));
            && Accepts(w.store, one) && Accepts(w.store, two)
            && var events := [Accept(0, one), Accept(1, two), Save(0, false), Save(1, false)];
               Cyclic(StoreEdges(RunFrom(w, md5, events).store))
  {
    var one, two := OldRow(a, name, Calling(b)), OldRow(b, name, Calling(a));
    var events := [Accept(0, one), Accept(1, two), Save(0, false), Save(1, false)];
    LeafAccepted(w.store, md5, a, b, name);
    LeafAccepted(w.store, md5, b, a, name);
    AcceptedResolves(w.store, one);
    AcceptedResolves(w.store, two);
    CallingRefs(a);
    CallingRefs(b);
    assert events[..4] == events;
    FourSteps(w, md5, events);
    var store' := Saved(w.store, md5, one, false);
    assert RunFrom(w, md5, events).store == Saved(store', md5, two, false);
    AcceptedKeeps(w.store, md5, one, false);
    CallBackCloses(store', md5, b, a, name, Calling(a), false);
  }

  // ----- a deletion that brings old data back -----

  const LEAF := Pipeline(0, 1, 2, [], [])

  /** The deletion of a loads its row; a is then updated to call nothing, and b to call a. */
  function Revival(a: Id, b: Id, name: Id): seq<Event> {
    [Load(0, a, name), Accept(1, OldRow(a, name, LEAF)), Save(1, false),
     Accept(2, OldRow(b, name, Calling(a))), Save(2, false), Save(0, true)]
  }

  lemma SixSteps(w: World, md5: Digest, e: seq<Event>)
    requires |e| == 6
    ensures RunFrom(w, md5, e) == Next(Next(RunFrom(w, md5, e[..4]), md5, e[4]), md5, e[5])
  {
    assert e[..5][..4] == e[..4];
    assert RunFrom(w, md5, e[..5]) == Next(RunFrom(w, md5, e[..4]), md5, e[4]);
  }

  lemma RevivalRun(w: World, md5: Digest, a: Id, b: Id, name: Id)
    requires a in w.store.templates && b in w.store.templates && Resolves(w.store, Current(a))
    requires MayAccept(w.store, OldRow(a, name, LEAF))
    requires MayAccept(Saved(w.store, md5, OldRow(a, name, LEAF), false), OldRow(b, name, Calling(a)))
    ensures var store' := Saved(w.store, md5, OldRow(a, name, LEAF), false);
            var store'' := Saved(store', md5, OldRow(b, name, Calling(a)), false);
            var loaded := OldRow(a, name, DataOf(w.store, Current(a)));
            RunFrom(w, md5, Revival(a, b, name)).store == Saved(store'', md5, loaded, true)
  {
    var e := Revival(a, b, name);
    FourSteps(w, md5, e);
    SixSteps(w, md5, e);
    var w2 := Next(Next(w, md5, e[0]), md5, e[1]);
    assert w2.pending[0] == OldRow(a, name, DataOf(w.store, Current(a))) && w2.store == w.store;
    var w4 := Next(Next(w2, md5, e[2]), md5, e[3]);
    assert w4.pending[0] == w2.pending[0] && w4.store == Saved(w.store, md5, OldRow(a, name, LEAF), false);
  }

  lemma LeafRow(store: Store, md5: Digest, a: Id, name: Id)
    requires Consistent(store, md5) && a in store.templates
    ensures Accepts(store, OldRow(a, name, LEAF)) && Refs(LEAF) == []
  {
    AcceptedIff(store, LEAF, a);
  }

  /** Both updates are accepted at once and saved at once, and the store is consistent after each. */
  lemma RevivalUpdates(store: Store, md5: Digest, a: Id, b: Id, name: Id)
    requires Injective(md5) && Consistent(store, md5) && a in store.templates && b in store.templates && a != b
    ensures var one, two := OldRow(a, name, LEAF), OldRow(b, name, Calling(a));
            var store' := Saved(store, md5, one, false);
            && Accepts(store, one) && Consistent(store', md5)
            && Accepts(store', two) && Consistent(Saved(store', md5, two, false), md5)
            && StoredRefs(Saved(store', md5, two, false), Current(b)) == [Current(a)]
  {
    var one, two := OldRow(a, name, LEAF), OldRow(b, name, Calling(a));
    var store' := Saved(store, md5, one, false);
    LeafRow(store, md5, a, name);
    AcceptedKeeps(store, md5, one, false);
    LeafAccepted(store', md5, b, a, name);
    CallingRefs(a);
    AcceptedKeeps(store', md5, two, false);
  }

  /** The deletion saves the row that it loaded, with the data that calls b: each template is in the other, though
      no two updates crossed. */
  lemma DeletionRevives(w: World, md5: Digest, a: Id, b: Id, name: Id)
    requires Injective(md5) && Consistent(w.store, md5) && a in w.store.templates && b in w.store.templates && a != b
    requires Current(b) in StoredRefs(w.store, Current(a))
    ensures var one, two := OldRow(a, name, LEAF), OldRow(b, name, Calling(a));
            && Accepts(w.store, one) && Accepts(Saved(w.store, md5, one, false), two)
            && Cyclic(StoreEdges(RunFrom(w, md5, Revival(a, b, name)).store))
  {
    var old_ := OldRow(a, name, DataOf(w.store, Current(a)));
    var store' := Saved(w.store, md5, OldRow(a, name, LEAF), false);
    RevivalUpdates(w.store, md5, a, b, name);
    AcceptedResolves(w.store, OldRow(a, name, LEAF));
    AcceptedResolves(store', OldRow(b, name, Calling(a)));
    RevivalRun(w, md5, a, b, name);
    CallBackCloses(Saved(store', md5, OldRow(b, name, Calling(a)), false), md5, a, b, name, old_.data, true);
  }
}
