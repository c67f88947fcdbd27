/** pipeline/core/pipeline.py: the flow graph of a pipeline and its pruning to a sub-process. */
module PipelineSpecs {
  import opened BreadthFirst
  import opened Options
  import opened Walks
  import opened Worklists

  datatype NodeClass = ActivityClass | GatewayClass | EventClass

  /** A flow refers to its end nodes weakly: by the id under which the spec registers them. */
  datatype SequenceFlow = SequenceFlow(id: Id, source: Id, target: Id)

  datatype FlowCollection = FlowCollection(flows: seq<SequenceFlow>, flowDict: map<Id, SequenceFlow>)

  datatype Outcome = Pruned | UnknownNode | NodeWithoutOutgoing | TargetWithoutIncoming

  class FlowNode {
    const id: Id
    const cls: NodeClass
    var incoming: Option<FlowCollection>
    var outgoing: Option<FlowCollection>

    constructor (id: Id, cls: NodeClass, incoming: FlowCollection, outgoing: FlowCollection)
      ensures this.id == id && this.cls == cls
      ensures this.incoming == Some(incoming) && this.outgoing == Some(outgoing)
    {
      this.id := id;
      this.cls := cls;
      this.incoming := Some(incoming);
      this.outgoing := Some(outgoing);
    }
  }

  // ----- the graph a spec holds -----

  type Outs = map<Id, Option<FlowCollection>>

  function FlowsOf(outs: Outs, id: Id): seq<SequenceFlow> {
    if id in outs && outs[id].Some? then outs[id].value.flows else []
  }

  function Targets(flows: seq<SequenceFlow>): seq<Id> {
    if flows == [] then [] else [flows[0].target] + Targets(flows[1..])
  }

  lemma {:induction false} TargetsMember(flows: seq<SequenceFlow>, t: Id)
    ensures t in Targets(flows) <==> exists f :: f in flows && f.target == t
  {
    if flows != [] {
      TargetsMember(flows[1..], t);
      assert forall f :: f in flows <==> f == flows[0] || f in flows[1..];
    }
  }

  /** The walkable graph when the walk stops at `stop`. */
  function CutNet(outs: Outs, stop: Id): Net<Id> {
    map id | id in outs :: if id == stop then [] else Targets(FlowsOf(outs, id))
  }

  /** The outgoing table once prune has cleared the start event and the stop node. */
  function Reset(outs: Outs, start: Id, keepFrom: Id, keepTo: Id): Outs {
    map id | id in outs :: if (id == start && keepFrom != start) || id == keepTo then None else outs[id]
  }

  ghost predicate ClosedOuts(outs: Outs) {
    forall id, f :: id in outs && f in FlowsOf(outs, id) ==> f.source == id && f.target in outs
  }

  lemma CutNetClosed(outs: Outs, stop: Id)
    requires ClosedOuts(outs)
    ensures ClosedNet(CutNet(outs, stop))
  {
    var net := CutNet(outs, stop);
    forall v, t | v in net && t in net[v] ensures t in net {
      TargetsMember(FlowsOf(outs, v), t);
    }
  }

  lemma ResetClosed(outs: Outs, start: Id, keepFrom: Id, keepTo: Id)
    requires ClosedOuts(outs)
    ensures ClosedOuts(Reset(outs, start, keepFrom, keepTo))
  {}

  /** The nodes that a walk from keepFrom which never leaves keepTo visits, in breadth-first order. */
  function KeptOrder(outs: Outs, keepFrom: Id, keepTo: Id): seq<Id>
    requires ClosedOuts(outs) && keepFrom in outs
  {
    CutNetClosed(outs, keepTo);
    Order(CutNet(outs, keepTo), keepFrom)
  }

  function KeptFlows(outs: Outs, nodes: set<Id>, keepTo: Id): set<SequenceFlow> {
    set id, f | id in nodes && id != keepTo && f in FlowsOf(outs, id) :: f
  }

  function FlowsInto(outs: Outs, nodes: set<Id>, keepTo: Id): set<SequenceFlow> {
    set id, f | id in nodes && id != keepTo && f in FlowsOf(outs, id) && f.target == keepTo :: f
  }

  /** The part of the order before a node; all of it when the node does not occur. */
  function Before(order: seq<Id>, id: Id): seq<Id> {
    if order == [] || order[0] == id then [] else [order[0]] + Before(order[1..], id)
  }

  lemma {:induction false} BeforeSnoc(order: seq<Id>, id: Id, next: Id)
    ensures Before(order + [next], id) == if id in order || next == id then Before(order, id) else order + [next]
    ensures id !in order ==> Before(order, id) == order
  {
    if order == [] {
      assert order + [next] == [next];
    } else {
      assert (order + [next])[1..] == order[1..] + [next];
      BeforeSnoc(order[1..], id, next);
    }
  }

  /** The dictionary that a loop of assignments builds. */
  function FlowDict(flows: seq<SequenceFlow>): map<Id, SequenceFlow> {
    if flows == [] then map[] else
    var last := flows[|flows| - 1];
    FlowDict(flows[..|flows| - 1])[last.id := last]
  }

  /** The dictionary has the ids of these flows and nothing else, each leading to a flow of that id: to the last one
      when several share it, and so to every flow when none do. */
  ghost predicate Indexes(flowDict: map<Id, SequenceFlow>, flows: seq<SequenceFlow>) {
    && (forall i :: i in flowDict <==> exists f :: f in flows && f.id == i)
    && (forall i :: i in flowDict ==> flowDict[i] in flows && flowDict[i].id == i)
    && (forall k :: 0 <= k < |flows| && (forall j :: k < j < |flows| ==> flows[j].id != flows[k].id) ==>
          flows[k].id in flowDict && flowDict[flows[k].id] == flows[k])
  }

  lemma {:induction false} FlowDictIndexes(flows: seq<SequenceFlow>)
    ensures Indexes(FlowDict(flows), flows)
  {
    if flows != [] {
      var front, last := flows[..|flows| - 1], flows[|flows| - 1];
      FlowDictIndexes(front);
      assert flows == front + [last];
      forall k | 0 <= k < |front| && forall j :: k < j < |flows| ==> flows[j].id != flows[k].id
        ensures FlowDict(flows)[flows[k].id] == flows[k]
      {
        assert flows[|front|].id != flows[k].id && front[k] == flows[k];
        assert forall j :: k < j < |front| ==> front[j] == flows[j];
      }
    }
  }

  /** With an id for each flow, the dictionary is the flows by their ids. */
  lemma DistinctFlowsAreFound(flowDict: map<Id, SequenceFlow>, flows: seq<SequenceFlow>, f: SequenceFlow)
    requires Indexes(flowDict, flows) && f in flows
    requires forall j, k :: 0 <= j < k < |flows| ==> flows[j].id != flows[k].id
    ensures f.id in flowDict && flowDict[f.id] == f
  {
    var k :| 0 <= k < |flows| && flows[k] == f;
    assert forall j :: k < j < |flows| ==> flows[j].id != flows[k].id;
  }

  /** A node whose flows prune cannot iterate over. */
  predicate Blocks(outs: Outs, keepTo: Id, id: Id) {
    id != keepTo && id in outs && outs[id] == None
  }

  ghost predicate Blocked(outs: Outs, order: seq<Id>, keepTo: Id) {
    exists id :: id in order && Blocks(outs, keepTo, id)
  }

  // ----- what the loop has collected, as a function of the ids it has taken from the queue -----

  function Into(flows: seq<SequenceFlow>, keepTo: Id): seq<SequenceFlow> {
    if flows == [] then [] else
    (if flows[0].target == keepTo then [flows[0]] else []) + Into(flows[1..], keepTo)
  }

  lemma {:induction false} IntoElements(flows: seq<SequenceFlow>, keepTo: Id)
    ensures Elements(Into(flows, keepTo)) == set f | f in flows && f.target == keepTo
  {
    if flows != [] {
      IntoElements(flows[1..], keepTo);
      ElementsConcat(if flows[0].target == keepTo then [flows[0]] else [], Into(flows[1..], keepTo));
      assert Elements([flows[0]]) == {flows[0]};
      assert forall f :: f in flows <==> f == flows[0] || f in flows[1..];
    }
  }

  function FlowsNext(outs: Outs, keepTo: Id, flows: seq<SequenceFlow>, id: Id): seq<SequenceFlow> {
    if id == keepTo then flows else flows + FlowsOf(outs, id)
  }

  /** A flow into keepTo is recorded while keepTo itself is not marked. */
  function RecordedNext(outs: Outs, keepTo: Id, recorded: seq<SequenceFlow>, marked: set<Id>,
                        id: Id): seq<SequenceFlow>
  {
    if keepTo in marked then recorded else recorded + Into(FlowsOf(outs, id), keepTo)
  }

  /** self.flows: the flows of every dequeued node but keepTo, once per dequeuing. */
  function FlowsAfter(outs: Outs, keepTo: Id, popped: seq<Id>): seq<SequenceFlow> {
    if popped == [] then [] else
    FlowsNext(outs, keepTo, FlowsAfter(outs, keepTo, popped[..|popped| - 1]), popped[|popped| - 1])
  }

  /** keep_to_incoming_flows. */
  function RecordedAfter(outs: Outs, keepTo: Id, popped: seq<Id>): seq<SequenceFlow> {
    if popped == [] then [] else
    RecordedNext(outs, keepTo, RecordedAfter(outs, keepTo, popped[..|popped| - 1]), Elements(popped),
                 popped[|popped| - 1])
  }

  lemma {:induction false} FlowsAfterElements(outs: Outs, keepTo: Id, popped: seq<Id>)
    ensures Elements(FlowsAfter(outs, keepTo, popped)) == KeptFlows(outs, Elements(popped), keepTo)
  {
    if popped != [] {
      var before, last := popped[..|popped| - 1], popped[|popped| - 1];
      FlowsAfterElements(outs, keepTo, before);
      assert popped == before + [last];
      ElementsSnoc(before, last);
      ElementsConcat(FlowsAfter(outs, keepTo, before), FlowsOf(outs, last));
      if last != keepTo {
        assert KeptFlows(outs, Elements(popped), keepTo)
            == KeptFlows(outs, Elements(before), keepTo) + Elements(FlowsOf(outs, last));
      } else {
        assert KeptFlows(outs, Elements(popped), keepTo) == KeptFlows(outs, Elements(before), keepTo);
      }
    }
  }

  lemma {:induction false} RecordedElements(outs: Outs, keepTo: Id, popped: seq<Id>)
    ensures Elements(RecordedAfter(outs, keepTo, popped)) == FlowsInto(outs, Elements(Before(popped, keepTo)), keepTo)
  {
    if popped != [] {
      var before, last := popped[..|popped| - 1], popped[|popped| - 1];
      RecordedElements(outs, keepTo, before);
      assert popped == before + [last];
      BeforeSnoc(before, keepTo, last);
      if keepTo !in popped {
        ElementsSnoc(before, last);
        var into := Into(FlowsOf(outs, last), keepTo);
        IntoElements(FlowsOf(outs, last), keepTo);
        ElementsConcat(RecordedAfter(outs, keepTo, before), into);
        assert FlowsInto(outs, Elements(popped), keepTo) == FlowsInto(outs, Elements(before), keepTo) + Elements(into);
      } else {
        assert keepTo in before || last == keepTo;
      }
    }
  }

  /** Repetitions do not change what comes before a node. */
  lemma {:induction false} BeforeMarked(popped: seq<Id>, id: Id)
    ensures Elements(Before(popped, id)) == Elements(Before(Marked(popped), id))
  {
    if popped != [] {
      var before, last := popped[..|popped| - 1], popped[|popped| - 1];
      BeforeMarked(before, id);
      assert popped == before + [last];
      BeforeMarkedSnoc(before, last, id);
    }
  }

  lemma BeforeMarkedSnoc(before: seq<Id>, last: Id, id: Id)
    requires Elements(Before(before, id)) == Elements(Before(Marked(before), id))
    ensures Elements(Before(before + [last], id)) == Elements(Before(Marked(before + [last]), id))
  {
    MarkedSnoc(before, last);
    MarkedElements(before);
    BeforeSnoc(before, id, last);
    BeforeSnoc(Marked(before), id, last);
    assert id in before <==> id in Marked(before) by {
      assert id in Elements(before) <==> id in Elements(Marked(before));
    }
    if id !in before && last != id {
      ElementsSnoc(before, last);
      ElementsSnoc(Marked(before), last);
    }
  }

  /** What the loop rebuilds: the nodes by class and the new table. */
  datatype Registers = Registers(activities: seq<FlowNode>, gateways: seq<FlowNode>, newObjects: map<Id, FlowNode>) {
    function Add(node: FlowNode): Registers {
      Registers(if node.cls == ActivityClass then activities + [node] else activities,
                if node.cls == GatewayClass then gateways + [node] else gateways,
                newObjects[node.id := node])
    }
  }

  function RegistersAfter(table: map<Id, FlowNode>, popped: seq<Id>): Registers {
    if popped == [] then Registers([], [], map[]) else
    var last, before := popped[|popped| - 1], RegistersAfter(table, popped[..|popped| - 1]);
    if last in table then before.Add(table[last]) else before
  }

  function Restrict(objects: map<Id, FlowNode>, ids: set<Id>): map<Id, FlowNode> {
    map id | id in ids && id in objects :: objects[id]
  }

  function OfClass(objects: map<Id, FlowNode>, ids: set<Id>, cls: NodeClass): set<FlowNode> {
    set id | id in ids && id in objects && objects[id].cls == cls :: objects[id]
  }

  ghost predicate KeysAreIds(table: map<Id, FlowNode>) {
    forall id :: id in table ==> table[id].id == id
  }

  /** The registers hold the given nodes, class by class. */
  ghost predicate Registered(table: map<Id, FlowNode>, ids: set<Id>, r: Registers) {
    && r.newObjects == Restrict(table, ids)
    && Elements(r.activities) == OfClass(table, ids, ActivityClass)
    && Elements(r.gateways) == OfClass(table, ids, GatewayClass)
  }

  lemma RegisteredAdd(table: map<Id, FlowNode>, ids: set<Id>, r: Registers, id: Id)
    requires Registered(table, ids, r) && id in table && table[id].id == id
    ensures Registered(table, ids + {id}, r.Add(table[id]))
  {
    ElementsSnoc(r.activities, table[id]);
    ElementsSnoc(r.gateways, table[id]);
  }

  lemma {:induction false} RegistersAfterHold(table: map<Id, FlowNode>, popped: seq<Id>)
    requires KeysAreIds(table) && Elements(popped) <= table.Keys
    ensures Registered(table, Elements(popped), RegistersAfter(table, popped))
  {
    if popped != [] {
      var last, before := popped[|popped| - 1], popped[..|popped| - 1];
      assert popped == before + [last];
      ElementsSnoc(before, last);
      RegistersAfterHold(table, before);
      RegisteredAdd(table, Elements(before), RegistersAfter(table, before), last);
    }
  }

  /** The nodes of a class in the order of their ids. */
  function InOrder(table: map<Id, FlowNode>, order: seq<Id>, cls: NodeClass): seq<FlowNode> {
    if order == [] then [] else
    var last := order[|order| - 1];
    InOrder(table, order[..|order| - 1], cls)
    + if last in table && table[last].cls == cls then [table[last]] else []
  }

  /** By first occurrence the lists have the nodes in this order. */
  ghost predicate ListedInOrder(table: map<Id, FlowNode>, order: seq<Id>, r: Registers) {
    && Marked(r.activities) == InOrder(table, order, ActivityClass)
    && Marked(r.gateways) == InOrder(table, order, GatewayClass)
  }

  lemma InOrderSnoc(table: map<Id, FlowNode>, before: seq<Id>, last: Id, cls: NodeClass, list: seq<FlowNode>)
    requires last in table && KeysAreIds(table)
    requires Marked(list) == InOrder(table, Marked(before), cls)
    requires Elements(list) == OfClass(table, Elements(before), cls)
    ensures Marked(if table[last].cls == cls then list + [table[last]] else list)
         == InOrder(table, Marked(before + [last]), cls)
  {
    MarkedSnoc(before, last);
    MarkedSnoc(list, table[last]);
    MarkedElements(before);
    MarkedElements(list);
    assert last in Marked(before) <==> last in Elements(before);
    assert table[last] in Marked(list) <==> table[last] in Elements(list);
    assert (Marked(before) + [last])[..|Marked(before)|] == Marked(before);
  }

  lemma {:induction false} RegistersAreInOrder(table: map<Id, FlowNode>, popped: seq<Id>)
    requires KeysAreIds(table) && Elements(popped) <= table.Keys
    ensures ListedInOrder(table, Marked(popped), RegistersAfter(table, popped))
  {
    if popped != [] {
      var last, before := popped[|popped| - 1], popped[..|popped| - 1];
      assert popped == before + [last];
      ElementsSnoc(before, last);
      RegistersAreInOrder(table, before);
      RegistersAfterHold(table, before);
      InOrderSnoc(table, before, last, ActivityClass, RegistersAfter(table, before).activities);
      InOrderSnoc(table, before, last, GatewayClass, RegistersAfter(table, before).gateways);
    }
  }

  lemma RegistersAfterKeys(table: map<Id, FlowNode>, popped: seq<Id>)
    requires KeysAreIds(table) && Elements(popped) <= table.Keys
    ensures RegistersAfter(table, popped).newObjects.Keys == Elements(popped)
  {}

  // ----- the result -----

  function RestrictOuts(outs: Outs, ids: set<Id>): Outs {
    map id | id in ids && id in outs :: outs[id]
  }

  function OutTable(objects: map<Id, FlowNode>): Outs
    reads objects.Values
  {
    map id | id in objects :: objects[id].outgoing
  }

  lemma RestrictTable(objects: map<Id, FlowNode>, ids: set<Id>)
    ensures OutTable(Restrict(objects, ids)) == RestrictOuts(OutTable(objects), ids)
  {}

  /** The kept part refers to kept nodes only. */
  lemma KeptClosed(outs: Outs, keepTo: Id, nodes: set<Id>)
    requires ClosedOuts(outs) && keepTo in outs && outs[keepTo] == None
    requires Successors(CutNet(outs, keepTo), nodes) <= nodes
    ensures ClosedOuts(RestrictOuts(outs, nodes))
  {
    var net, kept := CutNet(outs, keepTo), RestrictOuts(outs, nodes);
    forall id, f | id in kept && f in FlowsOf(kept, id) ensures f.source == id && f.target in kept {
      assert f in FlowsOf(outs, id);
      TargetsMember(FlowsOf(outs, id), f.target);
      assert f.target in net[id];
      assert f.target in Successors(net, nodes);
    }
  }

  /** The flows collected for the nodes of an order. */
  ghost predicate Collected(outs: Outs, keepTo: Id, order: seq<Id>, flows: seq<SequenceFlow>,
                            recorded: seq<SequenceFlow>)
  {
    && Elements(flows) == KeptFlows(outs, Elements(order), keepTo)
    && Elements(recorded) == FlowsInto(outs, Elements(Before(order, keepTo)), keepTo)
  }

  /** The loop's results are the kept part of the graph. */
  ghost predicate IsKeptPart(table: map<Id, FlowNode>, outs: Outs, keepFrom: Id, keepTo: Id, registers: Registers,
                             flows: seq<SequenceFlow>, recorded: seq<SequenceFlow>)
    requires ClosedOuts(outs) && keepFrom in outs
  {
    var order := KeptOrder(outs, keepFrom, keepTo);
    && Registered(table, Elements(order), registers)
    && ListedInOrder(table, order, registers)
    && Collected(outs, keepTo, order, flows, recorded)
    && ClosedOuts(RestrictOuts(outs, Elements(order)))
  }

  lemma PoppedInNet(net: Net<Id>, source: Id, turns: nat)
    requires ClosedNet(net) && source in net
    ensures Elements(WorkAfter(net, source, turns).popped) <= net.Keys
  {}

  // ----- runs of the main loop -----

  /** The main loop's variables, with the history of dequeued ids; `clean` until a node blocks it. */
  datatype Loop = Loop(work: Work<Id>, registers: Registers, flows: seq<SequenceFlow>, recorded: seq<SequenceFlow>,
                       clean: bool)

  function LoopNext(table: map<Id, FlowNode>, outs: Outs, keepTo: Id, l: Loop): Loop {
    if l.work.queue == [] || l.work.queue[0] !in outs || l.work.queue[0] !in table then l else
    var id, work := l.work.queue[0], NextWork(CutNet(outs, keepTo), l.work);
    Loop(work, l.registers.Add(table[id]), FlowsNext(outs, keepTo, l.flows, id),
         RecordedNext(outs, keepTo, l.recorded, Elements(work.popped), id),
         l.clean && !Blocks(outs, keepTo, id))
  }

  function LoopAfter(table: map<Id, FlowNode>, outs: Outs, keepFrom: Id, keepTo: Id, turns: nat): Loop {
    if turns == 0 then Loop(Work([], [keepFrom]), Registers([], [], map[]), [], [], true)
    else LoopNext(table, outs, keepTo, LoopAfter(table, outs, keepFrom, keepTo, turns - 1))
  }

  /** Each variable is the function of the history that its name says. */
  ghost predicate Explained(table: map<Id, FlowNode>, outs: Outs, keepTo: Id, l: Loop) {
    var popped := l.work.popped;
    && l.registers == RegistersAfter(table, popped)
    && l.flows == FlowsAfter(outs, keepTo, popped)
    && l.recorded == RecordedAfter(outs, keepTo, popped)
    && (l.clean <==> !Blocked(outs, popped, keepTo))
  }

  lemma ExplainedNext(table: map<Id, FlowNode>, outs: Outs, keepTo: Id, l: Loop)
    requires Explained(table, outs, keepTo, l)
    ensures Explained(table, outs, keepTo, LoopNext(table, outs, keepTo, l))
  {}

  lemma {:induction false} ExplainedAfter(table: map<Id, FlowNode>, outs: Outs, keepFrom: Id, keepTo: Id, turns: nat)
    ensures Explained(table, outs, keepTo, LoopAfter(table, outs, keepFrom, keepTo, turns))
  {
    if turns > 0 {
      ExplainedAfter(table, outs, keepFrom, keepTo, turns - 1);
      ExplainedNext(table, outs, keepTo, LoopAfter(table, outs, keepFrom, keepTo, turns - 1));
    }
  }

  /** The queue runs as the worklist of BreadthFirst does. */
  lemma {:induction false} WorkOfLoop(table: map<Id, FlowNode>, outs: Outs, keepFrom: Id, keepTo: Id, turns: nat)
    requires table.Keys == outs.Keys
    ensures LoopAfter(table, outs, keepFrom, keepTo, turns).work == WorkAfter(CutNet(outs, keepTo), keepFrom, turns)
  {
    if turns > 0 {
      WorkOfLoop(table, outs, keepFrom, keepTo, turns - 1);
    }
  }

  /** What the main loop has to know before a turn. */
  lemma BeforeTurn(table: map<Id, FlowNode>, outs: Outs, keepFrom: Id, keepTo: Id, turns: nat, l: Loop)
    requires ClosedOuts(outs) && keepFrom in outs && table.Keys == outs.Keys && KeysAreIds(table)
    requires LoopAfter(table, outs, keepFrom, keepTo, turns) == l && l.work.queue != []
    ensures l.work.queue[0] in outs
    ensures var l' := LoopNext(table, outs, keepTo, l);
            && LoopAfter(table, outs, keepFrom, keepTo, turns + 1) == l'
            && l'.registers.newObjects.Keys == Elements(l'.work.popped)
            && Lower(CutNet(outs, keepTo), l'.work, l.work)
  {
    var net, l' := CutNet(outs, keepTo), LoopNext(table, outs, keepTo, l);
    CutNetClosed(outs, keepTo);
    WorkOfLoop(table, outs, keepFrom, keepTo, turns);
    WorkOfLoop(table, outs, keepFrom, keepTo, turns + 1);
    Turn(net, keepFrom, turns, l.work);
    PoppedInNet(net, keepFrom, turns + 1);
    ExplainedAfter(table, outs, keepFrom, keepTo, turns + 1);
    assert net.Keys == outs.Keys;
    RegistersAfterKeys(table, l'.work.popped);
  }

  /** A blocking node at the head of the queue is a kept node. */
  lemma StuckTurn(table: map<Id, FlowNode>, outs: Outs, keepFrom: Id, keepTo: Id, turns: nat, w: Work<Id>)
    requires ClosedOuts(outs) && keepFrom in outs && table.Keys == outs.Keys
    requires LoopAfter(table, outs, keepFrom, keepTo, turns).work == w && w.queue != []
    requires Blocks(outs, keepTo, w.queue[0])
    ensures Blocked(outs, KeptOrder(outs, keepFrom, keepTo), keepTo)
  {
    CutNetClosed(outs, keepTo);
    WorkOfLoop(table, outs, keepFrom, keepTo, turns);
    Turn(CutNet(outs, keepTo), keepFrom, turns, w);
  }

  /** What the main loop has established when its queue is empty. */
  lemma AfterLoop(table: map<Id, FlowNode>, outs: Outs, keepFrom: Id, keepTo: Id, turns: nat, l: Loop)
    requires ClosedOuts(outs) && keepFrom in outs && table.Keys == outs.Keys && KeysAreIds(table)
    requires keepTo in outs && outs[keepTo] == None
    requires LoopAfter(table, outs, keepFrom, keepTo, turns) == l && l.work.queue == []
    ensures IsKeptPart(table, outs, keepFrom, keepTo, l.registers, l.flows, l.recorded)
    ensures l.clean <==> !Blocked(outs, KeptOrder(outs, keepFrom, keepTo), keepTo)
  {
    var net, popped := CutNet(outs, keepTo), l.work.popped;
    CutNetClosed(outs, keepTo);
    WorkOfLoop(table, outs, keepFrom, keepTo, turns);
    ExplainedAfter(table, outs, keepFrom, keepTo, turns);
    LastTurn(net, keepFrom, turns, l.work);
    PoppedInNet(net, keepFrom, turns);
    assert net.Keys == outs.Keys;
    HistoryIsKeptPart(table, outs, keepTo, popped);
    KeptClosed(outs, keepTo, Elements(popped));
    MarkedElements(popped);
    assert forall id :: id in popped <==> id in Elements(Marked(popped));
  }

  lemma HistoryIsKeptPart(table: map<Id, FlowNode>, outs: Outs, keepTo: Id, popped: seq<Id>)
    requires KeysAreIds(table) && Elements(popped) <= table.Keys
    ensures Registered(table, Elements(Marked(popped)), RegistersAfter(table, popped))
    ensures ListedInOrder(table, Marked(popped), RegistersAfter(table, popped))
    ensures Collected(outs, keepTo, Marked(popped), FlowsAfter(outs, keepTo, popped),
            RecordedAfter(outs, keepTo, popped))
  {
    MarkedElements(popped);
    RegistersAfterHold(table, popped);
    RegistersAreInOrder(table, popped);
    FlowsAfterElements(outs, keepTo, popped);
    RecordedElements(outs, keepTo, popped);
    BeforeMarked(popped, keepTo);
  }

  /** How prune ends, decided before it runs: an unknown name, then a kept node without outgoing flows
      to iterate over, then a target without an incoming collection to fill. */
  ghost predicate EndsWith(outcome: Outcome, outs: Outs, start: Id, keepFrom: Id, keepTo: Id, targetHasIncoming: bool)
    requires ClosedOuts(outs)
  {
    if keepFrom !in outs || keepTo !in outs then outcome == UnknownNode else
    ResetClosed(outs, start, keepFrom, keepTo);
    Rebuilds(outcome, Reset(outs, start, keepFrom, keepTo), keepFrom, keepTo, keepFrom != keepTo && targetHasIncoming)
  }

  /** Every node is registered under its own id. */
  ghost predicate ValidTable(table: map<Id, FlowNode>, startEvent: FlowNode, endEvent: FlowNode) {
    && KeysAreIds(table)
    && (startEvent.id in table ==> table[startEvent.id] == startEvent)
    && (endEvent.id in table ==> table[endEvent.id] == endEvent)
  }

  lemma RestrictValid(table: map<Id, FlowNode>, startEvent: FlowNode, endEvent: FlowNode, ids: set<Id>)
    requires ValidTable(table, startEvent, endEvent)
    ensures ValidTable(Restrict(table, ids), startEvent, endEvent)
  {}

  /** Each id stands for one node, and the outgoing flows of the nodes lead from them to each other. */
  ghost predicate WellConnected(nodes: seq<FlowNode>)
    reads nodes
  {
    && (forall m, n :: m in nodes && n in nodes && m.id == n.id ==> m == n)
    && (forall n, f :: n in nodes && n.outgoing.Some? && f in n.outgoing.value.flows ==>
          f.source == n.id && exists t :: t in nodes && t.id == f.target)
  }

  /** A table of such nodes under their ids is what prune works on. */
  lemma TableIsValid(table: map<Id, FlowNode>, startEvent: FlowNode, endEvent: FlowNode, nodes: seq<FlowNode>)
    requires WellConnected([startEvent, endEvent] + nodes) && KeysAreIds(table)
    requires table.Values <= {startEvent, endEvent} + Elements(nodes)
    requires forall n :: n in [startEvent, endEvent] + nodes ==> n.id in table
    ensures ValidTable(table, startEvent, endEvent) && ClosedOuts(OutTable(table))
  {
    forall id | id in table ensures table[id] in [startEvent, endEvent] + nodes {
      assert table[id] in table.Values;
    }
    forall id, f | id in OutTable(table) && f in FlowsOf(OutTable(table), id)
      ensures f.source == id && f.target in OutTable(table)
    {
      assert table[id].outgoing.Some? && f in table[id].outgoing.value.flows;
    }
  }

  // ----- the spec object -----

  class PipelineSpec {
    const startEvent: FlowNode
    const endEvent: FlowNode
    var flows: seq<SequenceFlow>
    var activities: seq<FlowNode>
    var gateways: seq<FlowNode>
    var objects: map<Id, FlowNode>

    ghost predicate Valid()
      reads this, objects.Values
    {
      ValidTable(objects, startEvent, endEvent) && ClosedOuts(OutTable(objects))
    }

    constructor (startEvent: FlowNode, endEvent: FlowNode, flows: seq<SequenceFlow>,
                 activities: seq<FlowNode>, gateways: seq<FlowNode>)
      ensures this.startEvent == startEvent && this.endEvent == endEvent
      ensures this.flows == flows && this.activities == activities && this.gateways == gateways
      ensures KeysAreIds(objects)
      ensures objects.Values <= {startEvent, endEvent} + Elements(activities + gateways)
      ensures forall n :: n in [startEvent, endEvent] + (activities + gateways) ==> n.id in objects
      ensures WellConnected([startEvent, endEvent] + (activities + gateways)) ==> Valid()
    {
      this.startEvent := startEvent;
      this.endEvent := endEvent;
      this.flows := flows;
      this.activities := activities;
      this.gateways := gateways;
      var table: map<Id, FlowNode> := map[startEvent.id := startEvent, endEvent.id := endEvent];
      var nodes := activities + gateways;
      for i := 0 to |nodes|
        invariant KeysAreIds(table)
        invariant table.Values <= {startEvent, endEvent} + Elements(nodes)
        invariant startEvent.id in table && endEvent.id in table
        invariant forall j :: 0 <= j < i ==> nodes[j].id in table
      {
        table := table[nodes[i].id := nodes[i]];
      }
      if WellConnected([startEvent, endEvent] + nodes) {
        TableIsValid(table, startEvent, endEvent, nodes);
      }
      objects := table;
    }

    /** The inner loop: records the node's flows and queues the targets that are not marked yet. */
    static method Follow(outgoing: seq<SequenceFlow>, marked: map<Id, FlowNode>, keepTo: Id,
                         queue: seq<Id>, flows: seq<SequenceFlow>, recorded: seq<SequenceFlow>)
      returns (queue': seq<Id>, flows': seq<SequenceFlow>, recorded': seq<SequenceFlow>)
      ensures flows' == flows + outgoing
      ensures queue' == queue + Unmarked(Targets(outgoing), marked.Keys)
      ensures recorded' == recorded + if keepTo in marked then [] else Into(outgoing, keepTo)
    {
      queue', flows', recorded' := queue, flows, recorded;
      for i := 0 to |outgoing|
        invariant flows' == flows + outgoing[..i]
        invariant queue' == QueueAfter(queue, outgoing[..i], marked.Keys)
        invariant recorded' == IntoAfter(recorded, outgoing[..i], marked.Keys, keepTo)
      {
        var out := outgoing[i];
        FollowStep(queue, recorded, outgoing[..i], out, marked.Keys, keepTo);
        assert outgoing[..i + 1] == outgoing[..i] + [out];
        flows' := flows' + [out];
        if out.target !in marked {
          if out.target == keepTo {
            recorded' := recorded' + [out];
          }
          queue' := queue' + [out.target];
        }
      }
      assert outgoing[..|outgoing|] == outgoing;
    }

    /** One turn of the main loop. */
    static method Turn(table: map<Id, FlowNode>, outs: Outs, keepTo: Id, queue: seq<Id>, registers: Registers,
                       flows: seq<SequenceFlow>, recorded: seq<SequenceFlow>, ghost l: Loop)
      returns (blocked: bool, queue': seq<Id>, registers': Registers, flows': seq<SequenceFlow>,
               recorded': seq<SequenceFlow>)
      requires queue != [] && queue[0] in outs && queue[0] in table
      requires Tracks(l, queue, registers, flows, recorded)
      requires LoopNext(table, outs, keepTo, l).registers.newObjects.Keys == Elements(l.work.popped + [queue[0]])
      ensures blocked <==> Blocks(outs, keepTo, queue[0])
      ensures !blocked ==> Tracks(LoopNext(table, outs, keepTo, l), queue', registers', flows', recorded')
    {
      var id := queue[0];
      registers' := registers.Add(table[id]);
      blocked, queue', flows', recorded' := false, queue[1..], flows, recorded;
      assert id in Elements(l.work.popped + [id]) by {
        ElementsSnoc(l.work.popped, id);
      }
      if id == keepTo {
        assert queue' + Unmarked([], Elements(l.work.popped + [id])) == queue';
        return;
      }
      if outs[id].None? {
        blocked := true;
        return;
      }
      assert outs[id].value.flows == FlowsOf(outs, id);
      queue', flows', recorded' := Follow(outs[id].value.flows, registers'.newObjects, keepTo, queue', flows, recorded);
      assert recorded + [] == recorded;
    }

    /** The main loop. It writes no node, so it reads the outgoing table as it is when the loop begins. */
    static method Traverse(table: map<Id, FlowNode>, outs: Outs, keepFrom: Id, keepTo: Id)
      returns (blocked: bool, registers: Registers, flows: seq<SequenceFlow>, recorded: seq<SequenceFlow>)
      requires table.Keys == outs.Keys && ClosedOuts(outs) && KeysAreIds(table)
      requires keepFrom in outs && keepTo in outs && outs[keepTo] == None
      ensures blocked <==> Blocked(outs, KeptOrder(outs, keepFrom, keepTo), keepTo)
      ensures !blocked ==> IsKeptPart(table, outs, keepFrom, keepTo, registers, flows, recorded)
    {
      var queue: seq<Id> := [keepFrom];
      registers, flows, recorded, blocked := Registers([], [], map[]), [], [], false;
      ghost var l, turns: nat := LoopAfter(table, outs, keepFrom, keepTo, 0), 0;
      while queue != []
        invariant LoopAfter(table, outs, keepFrom, keepTo, turns) == l
        invariant Tracks(l, queue, registers, flows, recorded)
        decreases |CutNet(outs, keepTo).Keys - Elements(l.work.popped)|, Stale(queue, Elements(l.work.popped))
      {
        BeforeTurn(table, outs, keepFrom, keepTo, turns, l);
        blocked, queue, registers, flows, recorded := Turn(table, outs, keepTo, queue, registers, flows, recorded, l);
        if blocked {
          StuckTurn(table, outs, keepFrom, keepTo, turns, l.work);
          return;
        }
        l, turns := LoopNext(table, outs, keepTo, l), turns + 1;
      }
      AfterLoop(table, outs, keepFrom, keepTo, turns, l);
    }

    /** Cuts the spec loose at its events. */
    method CutEvents(keepFrom: Id, keepTo: Id)
      modifies this`activities, this`gateways, this`flows, startEvent`outgoing, endEvent`incoming
      ensures startEvent.outgoing == if keepFrom != startEvent.id then None else old(startEvent.outgoing)
      ensures endEvent.incoming == if keepTo != endEvent.id then None else old(endEvent.incoming)
    {
      if keepFrom != startEvent.id {
        startEvent.outgoing := None;
      }
      if keepTo != endEvent.id {
        endEvent.incoming := None;
      }
      activities, gateways, flows := [], [], [];
    }

    /** Cuts the spec loose: at its events, then at the two named nodes, if it has them. */
    method Isolate(keepFrom: Id, keepTo: Id) returns (found: bool)
      requires Valid()
      modifies this`activities, this`gateways, this`flows, startEvent, endEvent, objects.Values
      ensures found <==> keepFrom in objects && keepTo in objects
      ensures found ==> OutTable(objects) == Reset(old(OutTable(objects)), startEvent.id, keepFrom, keepTo)
      ensures found ==> objects[keepFrom].incoming == None
      ensures found && keepFrom != keepTo ==> objects[keepTo].incoming == old(objects[keepTo].incoming)
      ensures found && keepTo != endEvent.id ==> endEvent.incoming == None
      ensures forall id :: id in objects && id != keepFrom && objects[id] != endEvent ==>
                objects[id].incoming == old(objects[id].incoming)
    {
      CutEvents(keepFrom, keepTo);
      if keepFrom !in objects || keepTo !in objects {
        return false;
      }
      objects[keepFrom].incoming := None;
      objects[keepTo].outgoing := None;
      return true;
    }

    /** Stores what the walk has collected. */
    method Store(registers: Registers, kept: seq<SequenceFlow>)
      modifies this`activities, this`gateways, this`flows
      ensures activities == registers.activities && gateways == registers.gateways && flows == kept
    {
      activities, gateways, flows := registers.activities, registers.gateways, kept;
    }

    /** Puts the collected incoming flows and the new table in place. */
    method Install(target: FlowNode, recorded: seq<SequenceFlow>, newObjects: map<Id, FlowNode>, ghost ids: set<Id>)
      requires Valid() && newObjects == Restrict(objects, ids) && ClosedOuts(RestrictOuts(OutTable(objects), ids))
      modifies this`objects, target`incoming
      ensures Valid() && objects == newObjects
      ensures target.incoming == Some(FlowCollection(recorded, FlowDict(recorded)))
    {
      RestrictTable(objects, ids);
      RestrictValid(objects, startEvent, endEvent, ids);
      target.incoming := Some(FlowCollection(recorded, FlowDict(recorded)));
      objects := newObjects;
    }

    /** The same, if the target has a collection of incoming flows to fill. */
    method Replace(target: FlowNode, recorded: seq<SequenceFlow>, newObjects: map<Id, FlowNode>, ghost ids: set<Id>)
      returns (outcome: Outcome)
      requires Valid() && newObjects == Restrict(objects, ids) && ClosedOuts(RestrictOuts(OutTable(objects), ids))
      modifies this`objects, target`incoming
      ensures outcome == if old(target.incoming.Some?) then Pruned else TargetWithoutIncoming
      ensures outcome == Pruned ==> Valid() && objects == newObjects
      ensures outcome == Pruned ==> target.incoming == Some(FlowCollection(recorded, FlowDict(recorded)))
      ensures Indexes(FlowDict(recorded), recorded)
    {
      FlowDictIndexes(recorded);
      if target.incoming.None? {
        return TargetWithoutIncoming;
      }
      Install(target, recorded, newObjects, ids);
      return Pruned;
    }

    /** Walks the isolated part and keeps it. */
    method Rebuild(keepFrom: Id, keepTo: Id) returns (outcome: Outcome)
      requires Valid() && keepFrom in objects && keepTo in objects && objects[keepTo].outgoing == None
      modifies this, objects.Values
      ensures Rebuilds(outcome, old(OutTable(objects)), keepFrom, keepTo, old(objects[keepTo].incoming.Some?))
      ensures outcome == Pruned ==> Valid() && old(objects)[keepTo].incoming.Some?
      ensures outcome == Pruned ==>
        var into := old(objects)[keepTo].incoming.value;
        && into.flowDict == FlowDict(into.flows) && Indexes(into.flowDict, into.flows)
        && IsKeptPart(old(objects), old(OutTable(objects)), keepFrom, keepTo,
                      Registers(activities, gateways, objects), flows, into.flows)
      ensures OutTable(old(objects)) == old(OutTable(objects))
      ensures keepTo != endEvent.id ==> endEvent.incoming == old(endEvent.incoming)
      ensures forall id :: id in old(objects) && id != keepTo ==>
                old(objects)[id].incoming == old(objects[id].incoming)
    {
      var blocked, newObjects, recorded := Collect(keepFrom, keepTo);
      if blocked {
        return NodeWithoutOutgoing;
      }
      ghost var ids := Elements(KeptOrder(OutTable(objects), keepFrom, keepTo));
      outcome := Replace(objects[keepTo], recorded, newObjects, ids);
    }

    /** The walk, with what it collects in the spec's own lists. */
    method Collect(keepFrom: Id, keepTo: Id)
      returns (blocked: bool, newObjects: map<Id, FlowNode>, recorded: seq<SequenceFlow>)
      requires Valid() && keepFrom in objects && keepTo in objects && objects[keepTo].outgoing == None
      modifies this`activities, this`gateways, this`flows
      ensures Valid() && OutTable(objects) == old(OutTable(objects))
      ensures blocked <==> Blocked(OutTable(objects), KeptOrder(OutTable(objects), keepFrom, keepTo), keepTo)
      ensures !blocked ==> IsKeptPart(objects, OutTable(objects), keepFrom, keepTo,
                                      Registers(activities, gateways, newObjects), flows, recorded)
    {
      var registers, kept;
      blocked, registers, kept, recorded := Traverse(objects, OutTable(objects), keepFrom, keepTo);
      newObjects := registers.newObjects;
      Store(registers, kept);
      assert registers == Registers(activities, gateways, newObjects);
    }

    /** Keeps what lies between two nodes. */
    method Prune(keepFrom: Id, keepTo: Id) returns (outcome: Outcome)
      requires Valid()
      modifies this, startEvent, endEvent, objects.Values
      ensures EndsWith(outcome, old(OutTable(objects)), startEvent.id, keepFrom, keepTo,
                       keepTo in old(objects) && old(objects[keepTo].incoming.Some?))
      ensures outcome == Pruned ==>
        Valid() && keepFrom in old(objects) && keepTo in old(objects) && old(objects)[keepTo].incoming.Some?
      ensures outcome == Pruned ==>
        var into := old(objects)[keepTo].incoming.value;
        && into.flowDict == FlowDict(into.flows) && Indexes(into.flowDict, into.flows)
        && PrunedTo(old(objects), old(OutTable(objects)), startEvent.id, keepFrom, keepTo,
                    Registers(activities, gateways, objects), flows, into.flows)
      ensures outcome == Pruned ==>
        && OutTable(old(objects)) == Reset(old(OutTable(objects)), startEvent.id, keepFrom, keepTo)
        && old(objects)[keepFrom].incoming == None && (keepTo != endEvent.id ==> endEvent.incoming == None)
        && forall id :: id in old(objects) && id != keepFrom && id != keepTo && old(objects)[id] != endEvent ==>
             old(objects)[id].incoming == old(objects[id].incoming)
    {
      ResetClosed(OutTable(objects), startEvent.id, keepFrom, keepTo);
      var found := Isolate(keepFrom, keepTo);
      if !found {
        return UnknownNode;
      }
      assert objects[keepTo].outgoing == OutTable(objects)[keepTo];
      outcome := Rebuild(keepFrom, keepTo);
    }
  }

  /** How the walk ends: it may meet a node it cannot iterate over; keepTo may lack a collection to fill. */
  ghost predicate Rebuilds(outcome: Outcome, outs: Outs, keepFrom: Id, keepTo: Id, targetHasIncoming: bool)
    requires ClosedOuts(outs) && keepFrom in outs
  {
    if Blocked(outs, KeptOrder(outs, keepFrom, keepTo), keepTo) then outcome == NodeWithoutOutgoing
    else if !targetHasIncoming then outcome == TargetWithoutIncoming
    else outcome == Pruned
  }

  /** The result of pruning, in terms of the table and the flows before the call. */
  ghost predicate PrunedTo(table: map<Id, FlowNode>, outs: Outs, start: Id, keepFrom: Id, keepTo: Id,
                           registers: Registers, flows: seq<SequenceFlow>, recorded: seq<SequenceFlow>)
    requires ClosedOuts(outs)
  {
    ResetClosed(outs, start, keepFrom, keepTo);
    keepFrom in outs
    && IsKeptPart(table, Reset(outs, start, keepFrom, keepTo), keepFrom, keepTo, registers, flows, recorded)
  }

  /** The loop's variables have the values that l records. */
  ghost predicate Tracks(l: Loop, queue: seq<Id>, registers: Registers, flows: seq<SequenceFlow>,
                         recorded: seq<SequenceFlow>)
  {
    queue == l.work.queue && registers == l.registers && flows == l.flows && recorded == l.recorded && l.clean
  }

  function QueueAfter(queue: seq<Id>, flows: seq<SequenceFlow>, marked: set<Id>): seq<Id> {
    queue + Unmarked(Targets(flows), marked)
  }

  function IntoAfter(recorded: seq<SequenceFlow>, flows: seq<SequenceFlow>, marked: set<Id>,
                     keepTo: Id): seq<SequenceFlow>
  {
    recorded + if keepTo in marked then [] else Into(flows, keepTo)
  }

  lemma {:induction false} TargetsSnoc(flows: seq<SequenceFlow>, out: SequenceFlow)
    ensures Targets(flows + [out]) == Targets(flows) + [out.target]
  {
    if flows == [] {
      assert flows + [out] == [out];
    } else {
      TargetsSnoc(flows[1..], out);
      assert (flows + [out])[1..] == flows[1..] + [out];
      assert [flows[0].target] + (Targets(flows[1..]) + [out.target]) == Targets(flows) + [out.target];
    }
  }

  lemma {:induction false} IntoSnoc(flows: seq<SequenceFlow>, out: SequenceFlow, keepTo: Id)
    ensures Into(flows + [out], keepTo) == Into(flows, keepTo) + if out.target == keepTo then [out] else []
  {
    if flows == [] {
      assert flows + [out] == [out];
    } else {
      var head := if flows[0].target == keepTo then [flows[0]] else [];
      var rest, tail := Into(flows[1..], keepTo), if out.target == keepTo then [out] else [];
      IntoSnoc(flows[1..], out, keepTo);
      assert (flows + [out])[1..] == flows[1..] + [out];
      assert head + (rest + tail) == head + rest + tail;
    }
  }

  lemma FollowStep(queue: seq<Id>, recorded: seq<SequenceFlow>, flows: seq<SequenceFlow>, out: SequenceFlow,
                   marked: set<Id>, keepTo: Id)
    ensures QueueAfter(queue, flows + [out], marked)
            == QueueAfter(queue, flows, marked) + if out.target in marked then [] else [out.target]
    ensures IntoAfter(recorded, flows + [out], marked, keepTo)
            == IntoAfter(recorded, flows, marked, keepTo)
               + if out.target !in marked && out.target == keepTo then [out] else []
  {
    TargetsSnoc(flows, out);
    UnmarkedSnoc(Targets(flows), out.target, marked);
    IntoSnoc(flows, out, keepTo);
  }
}
