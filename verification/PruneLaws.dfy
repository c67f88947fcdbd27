/** What pruning keeps, which incoming flows it records, and what a second pruning does. */
module PruneLaws {
  import opened BreadthFirst
  import opened Options
  import opened PipelineSpecs
  import opened Walks
  import opened Worklists

  function FlowEdges(outs: Outs): set<(Id, Id)> {
    set id, f | id in outs && f in FlowsOf(outs, id) :: (id, f.target)
  }

  /** A walk over flows that may end in `stop` but does not go through it. */
  ghost predicate WalkUpTo(outs: Outs, stop: Id, w: seq<Id>) {
    Walk(FlowEdges(outs), w) && forall i :: 0 <= i < |w| - 1 ==> w[i] != stop
  }

  lemma CutEdges(outs: Outs, stop: Id, e: (Id, Id))
    ensures e in Edges(CutNet(outs, stop)) <==> e in FlowEdges(outs) && e.0 != stop
  {
    if e.0 in outs {
      TargetsMember(FlowsOf(outs, e.0), e.1);
    }
  }

  lemma CutWalks(outs: Outs, stop: Id, w: seq<Id>)
    ensures Walk(Edges(CutNet(outs, stop)), w) <==> WalkUpTo(outs, stop, w)
  {
    var cut, all := Edges(CutNet(outs, stop)), FlowEdges(outs);
    if Walk(cut, w) {
      forall i | 0 <= i < |w| - 1 ensures (w[i], w[i + 1]) in all && w[i] != stop {
        CutEdges(outs, stop, (w[i], w[i + 1]));
      }
    }
    if WalkUpTo(outs, stop, w) {
      forall i | 0 <= i < |w| - 1 ensures (w[i], w[i + 1]) in cut {
        CutEdges(outs, stop, (w[i], w[i + 1]));
      }
    }
  }

  ghost predicate ReachedBy(outs: Outs, keepFrom: Id, keepTo: Id, id: Id, w: seq<Id>) {
    WalkUpTo(outs, keepTo, w) && w[0] == keepFrom && w[|w| - 1] == id
  }

  /** prune keeps exactly the nodes that some walk from keepFrom reaches without going through keepTo. */
  lemma KeptExactly(outs: Outs, keepFrom: Id, keepTo: Id)
    requires ClosedOuts(outs) && keepFrom in outs
    ensures Distinct(KeptOrder(outs, keepFrom, keepTo))
    ensures forall id :: id in KeptOrder(outs, keepFrom, keepTo)
                    <==> exists w :: ReachedBy(outs, keepFrom, keepTo, id, w)
  {
    var net := CutNet(outs, keepTo);
    CutNetClosed(outs, keepTo);
    OrderIsReachable(net, keepFrom);
    forall id ensures Reaches(net, keepFrom, id) <==> exists w :: ReachedBy(outs, keepFrom, keepTo, id, w) {
      if Reaches(net, keepFrom, id) {
        var w :| Walk(Edges(net), w) && w[0] == keepFrom && w[|w| - 1] == id;
        CutWalks(outs, keepTo, w);
        assert ReachedBy(outs, keepFrom, keepTo, id, w);
      }
      if w :| ReachedBy(outs, keepFrom, keepTo, id, w) {
        CutWalks(outs, keepTo, w);
      }
    }
  }

  /** Some walk of at most k flows leads to the node. */
  ghost predicate WithinSteps(outs: Outs, keepFrom: Id, keepTo: Id, k: nat, id: Id) {
    exists w :: ReachedBy(outs, keepFrom, keepTo, id, w) && |w| <= k + 1
  }

  lemma StepsAreLevels(outs: Outs, keepFrom: Id, keepTo: Id, k: nat, id: Id)
    ensures WithinSteps(outs, keepFrom, keepTo, k, id) <==> id in Within(CutNet(outs, keepTo), keepFrom, k)
  {
    WithinIsWalk(CutNet(outs, keepTo), keepFrom, k, id);
    if w :| Walk(Edges(CutNet(outs, keepTo)), w) && |w| <= k + 1 && w[0] == keepFrom && w[|w| - 1] == id {
      CutWalks(outs, keepTo, w);
      assert ReachedBy(outs, keepFrom, keepTo, id, w);
    }
    if w :| ReachedBy(outs, keepFrom, keepTo, id, w) && |w| <= k + 1 {
      CutWalks(outs, keepTo, w);
    }
  }

  /** The recorded incoming flows of keepTo, as Prune's contract names them. */
  function Recorded(outs: Outs, keepFrom: Id, keepTo: Id): set<SequenceFlow>
    requires ClosedOuts(outs) && keepFrom in outs
  {
    FlowsInto(outs, Elements(Before(KeptOrder(outs, keepFrom, keepTo), keepTo)), keepTo)
  }

  lemma {:induction false} BeforeMember(order: seq<Id>, id: Id, p: nat)
    requires p <= |order|
    ensures id !in order[..p] ==> forall v :: v in order[..p] ==> v in Before(order, id)
    ensures id in order[..p] ==> forall v :: v in Before(order, id) ==> v in order[..p]
    ensures forall v :: v in Before(order, id) ==> v in order && v != id
  {
    if order != [] && order[0] != id && p > 0 {
      assert order[..p] == [order[0]] + order[1..][..p - 1];
      BeforeMember(order[1..], id, p - 1);
    } else if order != [] && order[0] != id {
      BeforeMember(order[1..], id, 0);
    } else if p > 0 && order != [] {
      assert order[..p][0] == id;
    }
  }

  /** A flow into keepTo is recorded when its source is strictly nearer to keepFrom than keepTo is,
      whatever duplicates the queue held. */
  lemma NearerIsRecorded(outs: Outs, keepFrom: Id, keepTo: Id, f: SequenceFlow, k: nat)
    requires ClosedOuts(outs) && keepFrom in outs
    requires f.source in outs && f in FlowsOf(outs, f.source) && f.target == keepTo
    requires WithinSteps(outs, keepFrom, keepTo, k, f.source) && !WithinSteps(outs, keepFrom, keepTo, k, keepTo)
    ensures f in Recorded(outs, keepFrom, keepTo)
  {
    var net, order := CutNet(outs, keepTo), KeptOrder(outs, keepFrom, keepTo);
    CutNetClosed(outs, keepTo);
    StepsAreLevels(outs, keepFrom, keepTo, k, f.source);
    StepsAreLevels(outs, keepFrom, keepTo, k, keepTo);
    OrderByDistance(net, keepFrom, k);
    var p :| 0 <= p <= |order| && Elements(order[..p]) == Within(net, keepFrom, k);
    assert f.source in Elements(order[..p]) && keepTo !in Elements(order[..p]);
    BeforeMember(order, keepTo, p);
    assert f.source in Elements(Before(order, keepTo));
  }

  /** A flow into keepTo is missed when its source is strictly farther than keepTo. */
  lemma FartherIsMissed(outs: Outs, keepFrom: Id, keepTo: Id, f: SequenceFlow, k: nat)
    requires ClosedOuts(outs) && keepFrom in outs
    requires WithinSteps(outs, keepFrom, keepTo, k, keepTo) && !WithinSteps(outs, keepFrom, keepTo, k, f.source)
    ensures f !in Recorded(outs, keepFrom, keepTo)
  {
    var net, order := CutNet(outs, keepTo), KeptOrder(outs, keepFrom, keepTo);
    CutNetClosed(outs, keepTo);
    StepsAreLevels(outs, keepFrom, keepTo, k, f.source);
    StepsAreLevels(outs, keepFrom, keepTo, k, keepTo);
    OrderByDistance(net, keepFrom, k);
    var p :| 0 <= p <= |order| && Elements(order[..p]) == Within(net, keepFrom, k);
    assert f.source !in Elements(order[..p]) && keepTo in Elements(order[..p]);
    BeforeMember(order, keepTo, p);
    IntoSource(outs, Elements(Before(order, keepTo)), keepTo, f);
  }

  lemma IntoSource(outs: Outs, nodes: set<Id>, keepTo: Id, f: SequenceFlow)
    requires ClosedOuts(outs)
    ensures f in FlowsInto(outs, nodes, keepTo) ==> f.source in nodes
  {}

  /** The kept flows into keepTo. */
  function AllInto(outs: Outs, keepFrom: Id, keepTo: Id): set<SequenceFlow>
    requires ClosedOuts(outs) && keepFrom in outs
  {
    FlowsInto(outs, Elements(KeptOrder(outs, keepFrom, keepTo)), keepTo)
  }

  /** All kept flows into keepTo are recorded exactly when every kept node with such a flow comes before
      keepTo in breadth-first order. */
  lemma RecordsAllIff(outs: Outs, keepFrom: Id, keepTo: Id)
    requires ClosedOuts(outs) && keepFrom in outs
    ensures Recorded(outs, keepFrom, keepTo) == AllInto(outs, keepFrom, keepTo)
            <==> forall id, f :: id in KeptOrder(outs, keepFrom, keepTo) && id != keepTo
                                 && f in FlowsOf(outs, id) && f.target == keepTo
                                 ==> id in Before(KeptOrder(outs, keepFrom, keepTo), keepTo)
  {
    var order := KeptOrder(outs, keepFrom, keepTo);
    var all := AllInto(outs, keepFrom, keepTo);
    KeptInOuts(outs, keepFrom, keepTo);
    BeforeMember(order, keepTo, 0);
    assert Recorded(outs, keepFrom, keepTo) <= all;
    if Recorded(outs, keepFrom, keepTo) == all {
      forall id, f | id in order && id != keepTo && f in FlowsOf(outs, id) && f.target == keepTo
        ensures id in Before(order, keepTo)
      {
        assert f in all && f.source == id;
      }
    }
  }

  /** The source of the flow can be reached in fewer steps than the target. */
  ghost predicate Nearer(outs: Outs, keepFrom: Id, keepTo: Id, source: Id, target: Id) {
    exists k :: WithinSteps(outs, keepFrom, keepTo, k, source) && !WithinSteps(outs, keepFrom, keepTo, k, target)
  }

  /** Nothing is lost when every kept flow into keepTo comes from a strictly nearer node. */
  lemma NearerLosesNothing(outs: Outs, keepFrom: Id, keepTo: Id)
    requires ClosedOuts(outs) && keepFrom in outs
    requires forall f :: f in AllInto(outs, keepFrom, keepTo) ==> Nearer(outs, keepFrom, keepTo, f.source, keepTo)
    ensures Recorded(outs, keepFrom, keepTo) == AllInto(outs, keepFrom, keepTo)
  {
    RecordedIsKept(outs, keepFrom, keepTo);
    forall f | f in AllInto(outs, keepFrom, keepTo) ensures f in Recorded(outs, keepFrom, keepTo) {
      var k :| WithinSteps(outs, keepFrom, keepTo, k, f.source) && !WithinSteps(outs, keepFrom, keepTo, k, keepTo);
      IntoFlows(outs, Elements(KeptOrder(outs, keepFrom, keepTo)), keepTo, f);
      KeptInOuts(outs, keepFrom, keepTo);
      NearerIsRecorded(outs, keepFrom, keepTo, f, k);
    }
  }

  /** Something is lost when one comes from a strictly farther node. */
  lemma FartherLosesSome(outs: Outs, keepFrom: Id, keepTo: Id, f: SequenceFlow)
    requires ClosedOuts(outs) && keepFrom in outs && f in AllInto(outs, keepFrom, keepTo)
    requires Nearer(outs, keepFrom, keepTo, keepTo, f.source)
    ensures Recorded(outs, keepFrom, keepTo) < AllInto(outs, keepFrom, keepTo)
  {
    RecordedIsKept(outs, keepFrom, keepTo);
    var k :| WithinSteps(outs, keepFrom, keepTo, k, keepTo) && !WithinSteps(outs, keepFrom, keepTo, k, f.source);
    FartherIsMissed(outs, keepFrom, keepTo, f, k);
  }

  lemma RecordedIsKept(outs: Outs, keepFrom: Id, keepTo: Id)
    requires ClosedOuts(outs) && keepFrom in outs
    ensures Recorded(outs, keepFrom, keepTo) <= AllInto(outs, keepFrom, keepTo)
  {
    BeforeMember(KeptOrder(outs, keepFrom, keepTo), keepTo, 0);
  }

  lemma IntoFlows(outs: Outs, nodes: set<Id>, keepTo: Id, f: SequenceFlow)
    requires ClosedOuts(outs) && f in FlowsInto(outs, nodes, keepTo)
    ensures f.source in nodes && f in FlowsOf(outs, f.source) && f.target == keepTo
  {}

  lemma KeptInOuts(outs: Outs, keepFrom: Id, keepTo: Id)
    requires ClosedOuts(outs) && keepFrom in outs
    ensures Elements(KeptOrder(outs, keepFrom, keepTo)) <= outs.Keys
  {
    CutNetClosed(outs, keepTo);
    var net := CutNet(outs, keepTo);
    SingleState(net, keepFrom);
    BfsExtends(net, [], [keepFrom]);
    assert net.Keys == outs.Keys;
  }

  /** A gateway 1 with a direct flow to 4 beside a branch 1 -> 2 -> 3 -> 4. */
  function Shortcut(): Outs {
    map[1 := Some(FlowCollection([SequenceFlow(14, 1, 4), SequenceFlow(12, 1, 2)], map[])),
        2 := Some(FlowCollection([SequenceFlow(23, 2, 3)], map[])),
        3 := Some(FlowCollection([SequenceFlow(34, 3, 4)], map[])),
        4 := None]
  }

  lemma ShortcutFlows(outs: Outs)
    requires outs == Shortcut()
    ensures ClosedOuts(outs) && SequenceFlow(34, 3, 4) in FlowsOf(outs, 3)
    ensures {(1, 2), (1, 4), (2, 3)} <= FlowEdges(outs) && (1, 3) !in FlowEdges(outs)
  {
    assert FlowsOf(outs, 1) == [SequenceFlow(14, 1, 4), SequenceFlow(12, 1, 2)];
    assert FlowsOf(outs, 2) == [SequenceFlow(23, 2, 3)];
    assert FlowsOf(outs, 3) == [SequenceFlow(34, 3, 4)];
    assert FlowsOf(outs, 4) == [];
    assert FlowsOf(outs, 1)[0] == SequenceFlow(14, 1, 4) && FlowsOf(outs, 1)[1] == SequenceFlow(12, 1, 2);
    assert FlowsOf(outs, 2)[0] == SequenceFlow(23, 2, 3);
  }

  /** Node 3 is two flows away from 1, node 4 only one. */
  lemma ShortcutDistances(outs: Outs)
    requires {(1, 2), (1, 4), (2, 3)} <= FlowEdges(outs) && (1, 3) !in FlowEdges(outs)
    ensures exists w :: ReachedBy(outs, 1, 4, 3, w)
    ensures WithinSteps(outs, 1, 4, 1, 4) && !WithinSteps(outs, 1, 4, 1, 3)
  {
    assert ReachedBy(outs, 1, 4, 3, [1, 2, 3]);
    assert ReachedBy(outs, 1, 4, 4, [1, 4]);
    forall w | Walk(FlowEdges(outs), w) && w[0] == 1 && |w| <= 2 ensures w[|w| - 1] != 3 {
      assert |w| == 2 ==> (w[0], w[1]) in FlowEdges(outs);
    }
  }

  lemma KeptAndMissed(outs: Outs, keepFrom: Id, keepTo: Id, f: SequenceFlow)
    requires ClosedOuts(outs) && keepFrom in outs && f in FlowsOf(outs, f.source)
    requires f.target == keepTo && f.source != keepTo && f.source in KeptOrder(outs, keepFrom, keepTo)
    ensures f in AllInto(outs, keepFrom, keepTo)
  {}

  /** There the branch's last flow is kept but not recorded as incoming. */
  lemma LosesAFlow(outs: Outs)
    requires outs == Shortcut()
    ensures ClosedOuts(outs)
    ensures SequenceFlow(34, 3, 4) in AllInto(outs, 1, 4) - Recorded(outs, 1, 4)
  {
    ShortcutFlows(outs);
    ShortcutDistances(outs);
    KeptExactly(outs, 1, 4);
    KeptAndMissed(outs, 1, 4, SequenceFlow(34, 3, 4));
    FartherIsMissed(outs, 1, 4, SequenceFlow(34, 3, 4), 1);
  }

  /** Pruning what has been pruned, to the same ends, keeps the same nodes and records the same flows. */
  lemma PruneTwice(outs: Outs, keepFrom: Id, keepTo: Id, kept: Outs)
    requires ClosedOuts(outs) && keepFrom in outs && keepTo in outs && outs[keepTo] == None
    requires kept == RestrictOuts(outs, Elements(KeptOrder(outs, keepFrom, keepTo)))
    ensures ClosedOuts(kept) && keepFrom in kept
    ensures KeptOrder(kept, keepFrom, keepTo) == KeptOrder(outs, keepFrom, keepTo)
    ensures Recorded(kept, keepFrom, keepTo) == Recorded(outs, keepFrom, keepTo)
  {
    var order := KeptOrder(outs, keepFrom, keepTo);
    KeptCloses(outs, keepFrom, keepTo);
    KeptClosed(outs, keepTo, Elements(order));
    RestrictAgrees(outs, keepFrom, keepTo);
    SameInto(outs, order, keepTo);
  }

  lemma SameInto(outs: Outs, order: seq<Id>, keepTo: Id)
    ensures FlowsInto(RestrictOuts(outs, Elements(order)), Elements(Before(order, keepTo)), keepTo)
            == FlowsInto(outs, Elements(Before(order, keepTo)), keepTo)
  {
    var before := Before(order, keepTo);
    BeforeMember(order, keepTo, 0);
    forall v | v in Elements(before) ensures v in Elements(order) {
      assert v in before;
    }
    FlowsIntoRestrict(outs, Elements(order), Elements(before), keepTo);
  }

  lemma KeptCloses(outs: Outs, keepFrom: Id, keepTo: Id)
    requires ClosedOuts(outs) && keepFrom in outs
    ensures var order := KeptOrder(outs, keepFrom, keepTo);
            keepFrom in order && Successors(CutNet(outs, keepTo), Elements(order)) <= Elements(order)
  {
    var net := CutNet(outs, keepTo);
    CutNetClosed(outs, keepTo);
    OrderCloses(net, keepFrom);
  }

  lemma OrderCloses(net: Net<Id>, source: Id)
    requires ClosedNet(net) && source in net
    ensures source in Order(net, source)
    ensures Successors(net, Elements(Order(net, source))) <= Elements(Order(net, source))
  {
    SingleState(net, source);
    BfsExtends(net, [], [source]);
    assert ([] + [source])[0] == source;
    assert Walk(Edges(net), [source]);
    assert Elements([] + [source]) == {source};
    BfsClosed(net, source, [], [source]);
  }

  lemma RestrictAgrees(outs: Outs, keepFrom: Id, keepTo: Id)
    requires ClosedOuts(outs) && keepFrom in outs
    requires ClosedOuts(RestrictOuts(outs, Elements(KeptOrder(outs, keepFrom, keepTo))))
    requires keepFrom in KeptOrder(outs, keepFrom, keepTo)
    ensures KeptOrder(RestrictOuts(outs, Elements(KeptOrder(outs, keepFrom, keepTo))), keepFrom, keepTo)
            == KeptOrder(outs, keepFrom, keepTo)
  {
    var order := KeptOrder(outs, keepFrom, keepTo);
    var kept := RestrictOuts(outs, Elements(order));
    var net, other := CutNet(outs, keepTo), CutNet(kept, keepTo);
    CutNetClosed(outs, keepTo);
    CutNetClosed(kept, keepTo);
    KeptInOuts(outs, keepFrom, keepTo);
    forall v | v in order ensures v in net && v in other && net[v] == other[v] {
      assert v in Elements(order);
    }
    OrderAgrees(net, other, keepFrom);
  }

  lemma FlowsIntoRestrict(outs: Outs, ids: set<Id>, nodes: set<Id>, keepTo: Id)
    requires nodes <= ids
    ensures FlowsInto(RestrictOuts(outs, ids), nodes, keepTo) == FlowsInto(outs, nodes, keepTo)
  {}
}
