/** Textbook breadth-first search of a finite graph: its order, reachability and distances. */
module BreadthFirst {
  import opened Walks

  /** Successor lists, in order. */
  type Net<V> = map<V, seq<V>>

  ghost predicate ClosedNet<V>(net: Net<V>) {
    forall v, t :: v in net && t in net[v] ==> t in net
  }

  function Edges<V>(net: Net<V>): set<(V, V)> {
    set v, t | v in net && t in net[v] :: (v, t)
  }

  ghost predicate Reaches<V(!new)>(net: Net<V>, source: V, v: V) {
    exists w :: Walk(Edges(net), w) && w[0] == source && w[|w| - 1] == v
  }

  function Successors<V>(net: Net<V>, nodes: set<V>): set<V> {
    set v, t | v in nodes && v in net && t in net[v] :: t
  }

  /** The nodes at most k steps away. */
  function Within<V>(net: Net<V>, source: V, k: nat): set<V> {
    if k == 0 then {source} else Within(net, source, k - 1) + Successors(net, Within(net, source, k - 1))
  }

  /** The textbook order: a node is marked when it is queued, so it is queued once. */
  function Bfs<V>(net: Net<V>, done: seq<V>, pending: seq<V>): seq<V>
    requires State(net, done, pending)
    decreases |net.Keys - Elements(done)|
  {
    if pending == [] then done else
    StateStep(net, done, pending);
    Bfs(net, done + [pending[0]], NextPending(net, done, pending))
  }

  lemma {:induction false} BfsExtends<V>(net: Net<V>, done: seq<V>, pending: seq<V>)
    requires State(net, done, pending)
    ensures var order := Bfs(net, done, pending);
            done + pending <= order && Distinct(order) && Elements(order) <= net.Keys
    decreases |net.Keys - Elements(done)|
  {
    if pending == [] {
      assert done + pending == done;
    } else {
      StateStep(net, done, pending);
      BfsExtends(net, done + [pending[0]], NextPending(net, done, pending));
      assert done + pending <= done + [pending[0]] + NextPending(net, done, pending);
    }
  }

  ghost predicate State<V>(net: Net<V>, done: seq<V>, pending: seq<V>) {
    && ClosedNet(net)
    && Distinct(done + pending)
    && Elements(done + pending) <= net.Keys
  }

  function NextPending<V>(net: Net<V>, done: seq<V>, pending: seq<V>): seq<V>
    requires pending != [] && pending[0] in net
  {
    pending[1..] + Fresh(net[pending[0]], Elements(done + pending))
  }

  /** The first occurrences of the members of s that are not in seen. */
  function Fresh<V>(s: seq<V>, seen: set<V>): seq<V> {
    if s == [] then []
    else if s[0] in seen then Fresh(s[1..], seen)
    else [s[0]] + Fresh(s[1..], seen + {s[0]})
  }

  lemma {:induction false} FreshElements<V>(s: seq<V>, seen: set<V>)
    ensures Distinct(Fresh(s, seen))
    ensures Elements(Fresh(s, seen)) == Elements(s) - seen
  {
    if s != [] {
      assert Elements(s) == {s[0]} + Elements(s[1..]);
      if s[0] in seen {
        FreshElements(s[1..], seen);
      } else {
        FreshElements(s[1..], seen + {s[0]});
        var rest := Fresh(s[1..], seen + {s[0]});
        ElementsConcat([s[0]], rest);
        assert Elements([s[0]]) == {s[0]};
        DistinctConcat([s[0]], rest);
      }
    }
  }

  lemma StateStep<V>(net: Net<V>, done: seq<V>, pending: seq<V>)
    requires State(net, done, pending) && pending != []
    ensures pending[0] in net && pending[0] !in done
    ensures State(net, done + [pending[0]], NextPending(net, done, pending))
    ensures Elements(done + [pending[0]] + NextPending(net, done, pending))
            == Elements(done + pending) + Elements(net[pending[0]])
    ensures |net.Keys - Elements(done + [pending[0]])| < |net.Keys - Elements(done)|
  {
    var n := pending[0];
    DistinctConcat(done, pending);
    ElementsConcat(done, pending);
    assert n in Elements(pending);
    var unseen := Fresh(net[n], Elements(done + pending));
    FreshElements(net[n], Elements(done + pending));
    DistinctConcat(done + pending, unseen);
    assert done + [n] + NextPending(net, done, pending) == (done + pending) + unseen;
    ElementsConcat(done + pending, unseen);
    assert net.Keys - Elements(done + [n]) == (net.Keys - Elements(done)) - {n} by {
      ElementsSnoc(done, n);
    }
  }

  // ----- what the textbook order is -----

  function Order<V>(net: Net<V>, source: V): seq<V>
    requires ClosedNet(net) && source in net
  {
    SingleState(net, source);
    Bfs(net, [], [source])
  }

  lemma SingleState<V>(net: Net<V>, source: V)
    requires ClosedNet(net) && source in net
    ensures State(net, [], [source])
  {
    assert [] + [source] == [source];
  }

  ghost predicate PrefixSet<V(!new)>(order: seq<V>, nodes: set<V>) {
    exists p :: 0 <= p <= |order| && Elements(order[..p]) == nodes
  }

  /** The state has visited every node less than k steps away, and queued k-step nodes first. */
  ghost predicate AtLevel<V>(net: Net<V>, source: V, done: seq<V>, pending: seq<V>, k: nat, split: nat) {
    && State(net, done, pending) && split <= |pending|
    && Elements(done + pending[..split]) == Within(net, source, k)
    && Elements(done + pending) == Within(net, source, k) + Successors(net, Elements(done))
  }

  lemma NextLevel<V>(net: Net<V>, source: V, done: seq<V>, pending: seq<V>, k: nat)
    requires AtLevel(net, source, done, pending, k, 0)
    ensures AtLevel(net, source, done, pending, k + 1, |pending|)
  {
    assert done + pending[..0] == done;
    assert pending[..|pending|] == pending;
  }

  lemma SameLevel<V>(net: Net<V>, source: V, done: seq<V>, pending: seq<V>, k: nat, split: nat)
    requires AtLevel(net, source, done, pending, k, split) && split > 0
    ensures pending[0] in net
    ensures AtLevel(net, source, done + [pending[0]], NextPending(net, done, pending), k, split - 1)
  {
    StateStep(net, done, pending);
    var n, next := pending[0], NextPending(net, done, pending);
    assert done + [n] + next[..split - 1] == done + pending[..split];
    ElementsSnoc(done, n);
    assert Successors(net, Elements(done + [n])) == Successors(net, Elements(done)) + Elements(net[n]);
  }

  /** From a state at the boundary of level k, every later level is a prefix of the order. */
  lemma {:induction false} LevelPrefix<V(!new)>(net: Net<V>, source: V, done: seq<V>, pending: seq<V>, k: nat,
                                                split: nat, j: nat)
    requires AtLevel(net, source, done, pending, k, split) && k <= j
    ensures PrefixSet(Bfs(net, done, pending), Within(net, source, j))
    decreases j - k, split
  {
    BfsExtends(net, done, pending);
    if j == k {
      assert Bfs(net, done, pending)[..|done| + split] == done + pending[..split];
    } else if split == 0 {
      NextLevel(net, source, done, pending, k);
      LevelPrefix(net, source, done, pending, k + 1, |pending|, j);
    } else {
      SameLevel(net, source, done, pending, k, split);
      LevelPrefix(net, source, done + [pending[0]], NextPending(net, done, pending), k, split - 1, j);
    }
  }

  /** The order lists nodes by distance: the nodes at most k steps away come first. */
  lemma OrderByDistance<V(!new)>(net: Net<V>, source: V, k: nat)
    requires ClosedNet(net) && source in net
    ensures PrefixSet(Order(net, source), Within(net, source, k))
  {
    SingleState(net, source);
    assert [] + [source][..1] == [source] == [] + [source];
    assert Elements([source]) == {source};
    LevelPrefix(net, source, [], [source], 0, 1, k);
  }

  /** At most k steps away means a walk of at most k edges. */
  lemma {:induction false} WithinIsWalk<V(!new)>(net: Net<V>, source: V, k: nat, v: V)
    ensures v in Within(net, source, k)
            <==> exists w :: Walk(Edges(net), w) && |w| <= k + 1 && w[0] == source && w[|w| - 1] == v
  {
    if v in Within(net, source, k) {
      var w := WalkTo(net, source, k, v);
    }
    forall w | Walk(Edges(net), w) && |w| <= k + 1 && w[0] == source && w[|w| - 1] == v
      ensures v in Within(net, source, k)
    {
      WalkStaysWithin(net, source, k, w);
    }
  }

  lemma {:induction false} WalkTo<V>(net: Net<V>, source: V, k: nat, v: V) returns (w: seq<V>)
    requires v in Within(net, source, k)
    ensures Walk(Edges(net), w) && |w| <= k + 1 && w[0] == source && w[|w| - 1] == v
  {
    if k == 0 {
      w := [source];
    } else if v in Within(net, source, k - 1) {
      w := WalkTo(net, source, k - 1, v);
    } else {
      var u :| u in Within(net, source, k - 1) && u in net && v in net[u];
      w := WalkTo(net, source, k - 1, u);
      WalkAppend(Edges(net), w, v);
      w := w + [v];
    }
  }

  lemma {:induction false} WalkStaysWithin<V>(net: Net<V>, source: V, k: nat, w: seq<V>)
    requires Walk(Edges(net), w) && |w| <= k + 1 && w[0] == source
    ensures w[|w| - 1] in Within(net, source, k)
  {
    if |w| == 1 {
      SourceWithin(net, source, k);
    } else {
      var shorter := w[..|w| - 1];
      WalkSlice(Edges(net), w, 0, |w| - 1);
      assert w[0..|w| - 1] == shorter;
      WalkStaysWithin(net, source, k - 1, shorter);
      assert (w[|w| - 2], w[|w| - 1]) in Edges(net);
    }
  }

  lemma SourceWithin<V>(net: Net<V>, source: V, k: nat)
    ensures source in Within(net, source, k)
  {}

  /** The order lists exactly the reachable nodes, each once. */
  lemma OrderIsReachable<V(!new)>(net: Net<V>, source: V)
    requires ClosedNet(net) && source in net
    ensures Distinct(Order(net, source))
    ensures forall v :: v in Order(net, source) <==> Reaches(net, source, v)
  {
    var order := Order(net, source);
    SingleState(net, source);
    assert Elements([] + [source]) == {source};
    BfsExtends(net, [], [source]);
    BfsClosed(net, source, [], [source]);
    forall v | Reaches(net, source, v) ensures v in order {
      var w :| Walk(Edges(net), w) && w[0] == source && w[|w| - 1] == v;
      assert ([] + [source])[0] in order;
      forall e | e in Edges(net) && e.0 in Elements(order) ensures e.1 in Elements(order) {
        assert e.1 in Successors(net, Elements(order));
      }
      WalkStays(Edges(net), Elements(order), w);
    }
  }

  lemma {:induction false} BfsClosed<V(!new)>(net: Net<V>, source: V, done: seq<V>, pending: seq<V>)
    requires State(net, done, pending)
    requires forall v :: v in Elements(done + pending) ==> Reaches(net, source, v)
    requires Successors(net, Elements(done)) <= Elements(done + pending)
    ensures forall v :: v in Bfs(net, done, pending) ==> Reaches(net, source, v)
    ensures Successors(net, Elements(Bfs(net, done, pending))) <= Elements(Bfs(net, done, pending))
    decreases |net.Keys - Elements(done)|
  {
    if pending == [] {
      assert done + pending == done;
      assert forall v :: v in done ==> v in Elements(done);
    } else {
      var n := pending[0];
      StateStep(net, done, pending);
      assert n in Elements(done + pending);
      forall v | v in net[n] ensures Reaches(net, source, v) {
        var w :| Walk(Edges(net), w) && w[0] == source && w[|w| - 1] == n;
        WalkAppend(Edges(net), w, v);
        assert (w + [v])[|w + [v]| - 1] == v;
      }
      ElementsSnoc(done, n);
      assert Successors(net, Elements(done + [n])) == Successors(net, Elements(done)) + Elements(net[n]);
      BfsClosed(net, source, done + [n], NextPending(net, done, pending));
    }
  }

  /** The order depends only on the successor lists of the nodes it lists. */
  lemma {:induction false} BfsAgrees<V>(net: Net<V>, other: Net<V>, done: seq<V>, pending: seq<V>)
    requires State(net, done, pending) && State(other, done, pending)
    requires forall v :: v in Bfs(net, done, pending) ==> v in net && v in other && net[v] == other[v]
    ensures Bfs(net, done, pending) == Bfs(other, done, pending)
    decreases |net.Keys - Elements(done)|
  {
    if pending != [] {
      BfsExtends(net, done, pending);
      assert (done + pending)[|done|] == pending[0];
      StateStep(net, done, pending);
      StateStep(other, done, pending);
      BfsAgrees(net, other, done + [pending[0]], NextPending(net, done, pending));
    }
  }

  lemma OrderAgrees<V>(net: Net<V>, other: Net<V>, source: V)
    requires ClosedNet(net) && ClosedNet(other) && source in net && source in other
    requires forall v :: v in Order(net, source) ==> v in net && v in other && net[v] == other[v]
    ensures Order(net, source) == Order(other, source)
  {
    SingleState(net, source);
    SingleState(other, source);
    BfsAgrees(net, other, [], [source]);
  }
}
