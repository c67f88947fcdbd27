/** pipeline/utils/graph.py: depth-first search for a cycle, without a visited set. */
module CycleSearch {
  import opened Options
  import opened Walks

  /** Python's list.remove: drops the first occurrence. */
  function RemoveFirst<V(==)>(s: seq<V>, x: V): seq<V> {
    if s == [] then [] else if s[0] == x then s[1..] else [s[0]] + RemoveFirst(s[1..], x)
  }

  /** Python's list.index on a member. */
  function IndexOf<V(==)>(s: seq<V>, x: V): nat
    requires x in s
  {
    if s[0] == x then 0 else 1 + IndexOf(s[1..], x)
  }

  lemma {:induction false} IndexOfFirst<V>(s: seq<V>, x: V)
    requires x in s
    ensures var i := IndexOf(s, x); i < |s| && s[i] == x && x !in s[..i]
  {
    if s[0] != x {
      IndexOfFirst(s[1..], x);
      assert s == [s[0]] + s[1..];
    }
  }

  lemma {:induction false} RemoveLastOfDistinct<V>(s: seq<V>, x: V)
    requires x !in s
    ensures RemoveFirst(s + [x], x) == s
  {
    if s == [] {
      assert s + [x] == [x];
    } else {
      assert (s + [x])[1..] == s[1..] + [x];
      RemoveLastOfDistinct(s[1..], x);
    }
  }

  /** No walk that leaves the stack through v meets a node twice. */
  ghost predicate Clear<V(!new)>(edges: set<(V, V)>, stack: seq<V>, v: V) {
    forall w :: Walk(edges, w) && w[0] == v ==> Distinct(stack + w)
  }

  /** A cycle that a search from these nodes can meet. */
  ghost predicate CycleFrom<V(!new)>(edges: set<(V, V)>, nodes: seq<V>) {
    exists w :: Walk(edges, w) && w[0] in nodes && !Distinct(w)
  }

  lemma ClearFromSuccessors<V(!new)>(edges: set<(V, V)>, stack: seq<V>, v: V, targets: seq<V>)
    requires Distinct(stack + [v])
    requires forall u :: (v, u) in edges ==> u in targets
    requires forall u :: u in targets ==> Clear(edges, stack + [v], u)
    ensures Clear(edges, stack, v)
  {
    forall w | Walk(edges, w) && w[0] == v ensures Distinct(stack + w) {
      if |w| == 1 {
        assert w == [v];
      } else {
        assert (w[0], w[1]) in edges;
        WalkSlice(edges, w, 1, |w|);
        assert Clear(edges, stack + [v], w[1]);
        assert Distinct(stack + [v] + w[1..]);
        assert stack + [v] + w[1..] == stack + w;
      }
    }
  }

  lemma ClearNodesMeanNoCycle<V(!new)>(edges: set<(V, V)>, nodes: seq<V>)
    requires forall v :: v in nodes ==> Clear(edges, [], v)
    ensures !CycleFrom(edges, nodes)
  {
    forall w | Walk(edges, w) && w[0] in nodes ensures Distinct(w) {
      assert Clear(edges, [], w[0]);
      assert [] + w == w;
    }
  }

  /** When every edge starts at a listed node, the search misses no cycle. */
  lemma CycleFromIsCyclic<V(!new)>(edges: set<(V, V)>, nodes: seq<V>)
    requires forall e :: e in edges ==> e.0 in nodes
    ensures CycleFrom(edges, nodes) <==> Cyclic(edges)
  {
    if Cyclic(edges) {
      var w :| ClosedWalk(edges, w);
      assert (w[0], w[1]) in edges;
      assert !Differ(w, 0, |w| - 1);
      assert w[0] in nodes && !Distinct(w);
    }
    if CycleFrom(edges, nodes) {
      var w :| Walk(edges, w) && w[0] in nodes && !Distinct(w);
      RepeatMakesCycle(edges, w);
    }
  }

  class Graph<V(==, !new)> {
    const nodes: seq<V>
    const flows: seq<(V, V)>
    var path: seq<V>
    var lastVisited: Option<V>

    constructor (nodes: seq<V>, flows: seq<(V, V)>)
      ensures this.nodes == nodes && this.flows == flows
      ensures path == [] && lastVisited == None
    {
      this.nodes := nodes;
      this.flows := flows;
      path := [];
      lastVisited := None;
    }

    ghost function Edges(): set<(V, V)> {
      Elements(flows)
    }

    ghost function Universe(): set<V> {
      Elements(nodes) + (set e | e in flows :: e.1)
    }

    /** The search succeeded: the stack is a walk that the last node closes. */
    ghost predicate Closed()
      reads this
    {
      lastVisited.Some? && lastVisited.value in path && Walk(Edges(), path + [lastVisited.value])
    }

    method TargetsOf(node: V) returns (targets: seq<V>)
      ensures forall u :: u in targets <==> (node, u) in Edges()
    {
      targets := [];
      for i := 0 to |flows|
        invariant forall u :: u in targets <==> (node, u) in flows[..i]
      {
        if flows[i].0 == node {
          targets := targets + [flows[i].1];
        }
      }
      assert flows[..|flows|] == flows;
    }

    /** What a recursive call needs: the stack a new node may be pushed on. */
    ghost predicate Pushable(stack: seq<V>, node: V) {
      && node in Universe() && Elements(stack) <= Universe()
      && Distinct(stack + [node]) && Walk(Edges(), stack + [node])
    }

    lemma PushTarget(stack: seq<V>, node: V, target: V)
      requires Pushable(stack, node) && (node, target) in Edges()
      ensures Walk(Edges(), stack + [node] + [target])
      ensures target !in stack + [node] ==> Pushable(stack + [node], target)
      ensures |Universe() - Elements(stack + [node])| < |Universe() - Elements(stack)|
    {
      DistinctSnoc(stack, node);
      DistinctSnoc(stack + [node], target);
      WalkAppend(Edges(), stack + [node], target);
      assert Elements(stack + [node]) == Elements(stack) + {node};
      assert Universe() - Elements(stack + [node]) == (Universe() - Elements(stack)) - {node};
    }

    method Visit(node: V) returns (found: bool)
      requires Pushable(path, node)
      modifies this
      ensures found ==> Closed() && old(path) + [node] <= path
      ensures !found ==> path == old(path) && Clear(Edges(), path, node)
      decreases |Universe() - Elements(path)|
    {
      ghost var stack := path;
      path := path + [node];
      var targets := TargetsOf(node);
      for i := 0 to |targets|
        invariant path == stack + [node]
        invariant forall j :: 0 <= j < i ==> Clear(Edges(), path, targets[j])
      {
        var target := targets[i];
        PushTarget(stack, node, target);
        if target in path {
          lastVisited := Some(target);
          return true;
        }
        var hit := Visit(target);
        if hit {
          return true;
        }
      }
      ClearFromSuccessors(Edges(), stack, node, targets);
      DistinctSnoc(stack, node);
      RemoveLastOfDistinct(stack, node);
      path := RemoveFirst(path, node);
      return false;
    }

    method HasCycle() returns (found: bool)
      modifies this
      ensures found ==> Closed() && path[0] in nodes
      ensures !found ==> !CycleFrom(Edges(), nodes)
    {
      path := [];
      for i := 0 to |nodes|
        invariant path == []
        invariant forall v :: v in nodes[..i] ==> Clear(Edges(), [], v)
      {
        assert path + [nodes[i]] == [nodes[i]];
        var hit := Visit(nodes[i]);
        assert hit ==> path[0] == [nodes[i]][0];
        if hit {
          return true;
        }
      }
      ClearNodesMeanNoCycle(Edges(), nodes);
      return false;
    }

    /** Empty exactly when the nodes reach no cycle; otherwise a closed walk of the graph. */
    method GetCycle() returns (cycle: seq<V>)
      modifies this
      ensures cycle == [] <==> !CycleFrom(Edges(), nodes)
      ensures cycle != [] ==> ClosedWalk(Edges(), cycle)
    {
      var found := HasCycle();
      if found {
        var index := IndexOf(path, lastVisited.value);
        IndexOfFirst(path, lastVisited.value);
        var whole := path + [lastVisited.value];
        cycle := path[index..] + [lastVisited.value];
        WalkSlice(Edges(), whole, index, |whole|);
        assert cycle == whole[index..|whole|];
        assert !Differ(whole, index, |whole| - 1) && whole[0] in nodes;
        assert CycleFrom(Edges(), nodes);
      } else {
        cycle := [];
      }
    }
  }
}
