/** Finite directed graphs as sets of edges: walks, cycles and rankings. */
module Walks {

  ghost predicate Differ<V>(s: seq<V>, i: nat, j: nat)
    requires i < |s| && j < |s|
  {
    s[i] != s[j]
  }

  /** No element twice. (Stated through Differ, so that only a mention of Differ draws a pair from it.) */
  ghost predicate Distinct<V>(s: seq<V>) {
    forall i, j {:trigger Differ(s, i, j)} :: 0 <= i < j < |s| ==> Differ(s, i, j)
  }

  function Elements<V>(s: seq<V>): set<V> {
    set x | x in s
  }

  ghost predicate Walk<V>(edges: set<(V, V)>, w: seq<V>) {
    && w != []
    && forall i :: 0 <= i < |w| - 1 ==> (w[i], w[i + 1]) in edges
  }

  ghost predicate ClosedWalk<V>(edges: set<(V, V)>, w: seq<V>) {
    Walk(edges, w) && |w| >= 2 && w[0] == w[|w| - 1]
  }

  ghost predicate Cyclic<V(!new)>(edges: set<(V, V)>) {
    exists w: seq<V> :: ClosedWalk(edges, w)
  }

  /** Every edge goes strictly down: the measure that recursion over the graph needs. */
  ghost predicate Ranks<V>(edges: set<(V, V)>, rank: map<V, nat>) {
    forall e :: e in edges ==> e.0 in rank && e.1 in rank && rank[e.1] < rank[e.0]
  }

  lemma AnElement<V(!new)>(s: set<V>) returns (x: V)
    requires s != {}
    ensures x in s
  {
    x :| x in s;
  }

  ghost function Any<V(!new)>(s: set<V>): (x: V)
    requires s != {}
    ensures x in s
  {
    var x :| x in s;
    x
  }

  /** Some element: the order of a Python dict or set is not specified here. */
  method Pick<V(==, !new)>(s: set<V>) returns (x: V)
    requires s != {}
    ensures x in s
  {
    x :| x in s;
  }

  lemma ElementsSnoc<V>(a: seq<V>, x: V)
    ensures Elements(a + [x]) == Elements(a) + {x}
  {}

  lemma ElementsConcat<V>(a: seq<V>, b: seq<V>)
    ensures Elements(a + b) == Elements(a) + Elements(b)
  {}

  lemma DistinctConcat<V>(a: seq<V>, b: seq<V>)
    ensures Distinct(a + b) <==> Distinct(a) && Distinct(b) && Elements(a) !! Elements(b)
  {
    var s := a + b;
    if Distinct(s) {
      forall i, j | 0 <= i < j < |a| ensures Differ(a, i, j) {
        assert Differ(s, i, j);
      }
      forall i, j | 0 <= i < j < |b| ensures Differ(b, i, j) {
        assert Differ(s, |a| + i, |a| + j);
      }
      forall i, j | 0 <= i < |a| && 0 <= j < |b| ensures a[i] != b[j] {
        assert Differ(s, i, |a| + j);
      }
    }
    if Distinct(a) && Distinct(b) && Elements(a) !! Elements(b) {
      forall i, j | 0 <= i < j < |s| ensures Differ(s, i, j) {
        if j < |a| {
          assert Differ(a, i, j);
        } else if |a| <= i {
          assert Differ(b, i - |a|, j - |a|);
        } else {
          assert a[i] in Elements(a) && b[j - |a|] in Elements(b);
        }
      }
    }
  }

  lemma DistinctSnoc<V>(s: seq<V>, x: V)
    ensures Distinct(s + [x]) <==> Distinct(s) && x !in s
  {
    DistinctConcat(s, [x]);
    assert Elements([x]) == {x};
  }

  lemma DistinctCardinality<V>(s: seq<V>)
    requires Distinct(s)
    ensures |Elements(s)| == |s|
  {
    if s != [] {
      var rest := s[..|s| - 1];
      assert s == rest + [s[|s| - 1]];
      DistinctSnoc(rest, s[|s| - 1]);
      DistinctCardinality(rest);
      assert Elements(s) == Elements(rest) + {s[|s| - 1]};
    }
  }

  lemma Pigeonhole<V>(s: seq<V>, universe: set<V>)
    requires Elements(s) <= universe
    requires |s| > |universe|
    ensures !Distinct(s)
  {
    if Distinct(s) {
      DistinctCardinality(s);
      SubsetCardinality(Elements(s), universe);
    }
  }

  lemma SubsetCardinality<V>(a: set<V>, b: set<V>)
    requires a <= b
    ensures |a| <= |b|
  {
    if a != {} {
      var x :| x in a;
      SubsetCardinality(a - {x}, b - {x});
    }
  }

  lemma WalkSlice<V>(edges: set<(V, V)>, w: seq<V>, i: nat, j: nat)
    requires Walk(edges, w) && i < j <= |w|
    ensures Walk(edges, w[i..j])
  {}

  lemma WalkAppend<V>(edges: set<(V, V)>, w: seq<V>, v: V)
    requires Walk(edges, w) && (w[|w| - 1], v) in edges
    ensures Walk(edges, w + [v])
  {}

  /** A walk that visits a node twice contains a cycle. */
  lemma RepeatMakesCycle<V(!new)>(edges: set<(V, V)>, w: seq<V>)
    requires Walk(edges, w) && !Distinct(w)
    ensures Cyclic(edges)
  {
    var i, j :| 0 <= i < j < |w| && !Differ(w, i, j);
    WalkSlice(edges, w, i, j + 1);
    assert ClosedWalk(edges, w[i..j + 1]);
  }

  lemma {:induction false} RankFallsAlong<V>(edges: set<(V, V)>, rank: map<V, nat>, w: seq<V>)
    requires Ranks(edges, rank) && Walk(edges, w) && |w| >= 2
    ensures w[0] in rank && w[|w| - 1] in rank && rank[w[|w| - 1]] < rank[w[0]]
  {
    assert (w[0], w[1]) in edges;
    if |w| > 2 {
      WalkSlice(edges, w, 1, |w|);
      RankFallsAlong(edges, rank, w[1..]);
    }
  }

  lemma RankedIsAcyclic<V(!new)>(edges: set<(V, V)>, rank: map<V, nat>)
    requires Ranks(edges, rank)
    ensures !Cyclic(edges)
  {
    forall w | ClosedWalk(edges, w) ensures false {
      RankFallsAlong(edges, rank, w);
    }
  }

  ghost predicate HasSuccessorIn<V(!new)>(edges: set<(V, V)>, v: V, nodes: set<V>) {
    exists u :: u in nodes && (v, u) in edges
  }

  /** If every node of a non-empty set has a successor in the set, walks of any length exist. */
  lemma LongWalk<V(!new)>(edges: set<(V, V)>, nodes: set<V>, n: nat) returns (w: seq<V>)
    requires nodes != {}
    requires forall v :: v in nodes ==> HasSuccessorIn(edges, v, nodes)
    ensures |w| == n + 1 && Walk(edges, w) && Elements(w) <= nodes
  {
    if n == 0 {
      var v :| v in nodes;
      w := [v];
    } else {
      var shorter := LongWalk(edges, nodes, n - 1);
      var last := shorter[|shorter| - 1];
      assert last in Elements(shorter);
      assert HasSuccessorIn(edges, last, nodes);
      var u :| u in nodes && (last, u) in edges;
      w := shorter + [u];
      WalkAppend(edges, shorter, u);
    }
  }

  /** An acyclic graph has a sink in every non-empty set of nodes. */
  lemma SinkExists<V(!new)>(edges: set<(V, V)>, nodes: set<V>) returns (v: V)
    requires nodes != {} && !Cyclic(edges)
    ensures v in nodes && forall u :: u in nodes ==> (v, u) !in edges
  {
    if forall v :: v in nodes ==> HasSuccessorIn(edges, v, nodes) {
      var w := LongWalk(edges, nodes, |nodes|);
      Pigeonhole(w, nodes);
      RepeatMakesCycle(edges, w);
    }
    v :| v in nodes && !HasSuccessorIn(edges, v, nodes);
  }

  lemma FewerEdgesStayAcyclic<V(!new)>(fewer: set<(V, V)>, edges: set<(V, V)>)
    requires fewer <= edges && !Cyclic(edges)
    ensures !Cyclic(fewer)
  {
    forall w | ClosedWalk(fewer, w) ensures false {
      assert ClosedWalk(edges, w);
    }
  }

  /** Acyclic means rankable: peel sinks off one at a time. */
  lemma {:induction false} AcyclicHasRank<V(!new)>(edges: set<(V, V)>, nodes: set<V>) returns (rank: map<V, nat>)
    requires !Cyclic(edges)
    requires forall e :: e in edges ==> e.0 in nodes && e.1 in nodes
    ensures rank.Keys == nodes && Ranks(edges, rank)
    decreases |nodes|
  {
    if nodes == {} {
      rank := map[];
    } else {
      var sink := SinkExists(edges, nodes);
      var inner := set e | e in edges && e.0 != sink && e.1 != sink;
      FewerEdgesStayAcyclic(inner, edges);
      var smaller := AcyclicHasRank(inner, nodes - {sink});
      rank := map v | v in nodes :: if v == sink then 0 else smaller[v] + 1;
      forall e | e in edges ensures rank[e.1] < rank[e.0] {
        assert e.0 != sink;
        if e.1 != sink {
          assert e in inner;
        }
      }
    }
  }

  function EdgesWithin<V>(edges: set<(V, V)>, nodes: set<V>): set<(V, V)> {
    set e | e in edges && e.0 in nodes && e.1 in nodes
  }

  function EdgesOutside<V>(edges: set<(V, V)>, nodes: set<V>): set<(V, V)> {
    set e | e in edges && e.0 !in nodes && e.1 !in nodes
  }

  function Ends<V>(edges: set<(V, V)>): set<V> {
    (set e | e in edges :: e.0) + (set e | e in edges :: e.1)
  }

  ghost function Bound<V>(rank: map<V, nat>, nodes: set<V>): (b: nat)
    requires nodes <= rank.Keys
    ensures forall v :: v in nodes ==> rank[v] < b
  {
    if nodes == {} then 0 else
    var v :| v in nodes;
    var rest := Bound(rank, nodes - {v});
    if rank[v] < rest then rest else rank[v] + 1
  }

  /** A graph is acyclic when it is acyclic inside and outside a set of nodes that no edge leaves. */
  lemma AcyclicByParts<V(!new)>(edges: set<(V, V)>, inside: set<V>)
    requires !Cyclic(EdgesWithin(edges, inside)) && !Cyclic(EdgesOutside(edges, inside))
    requires forall e :: e in edges && e.0 in inside ==> e.1 in inside
    ensures !Cyclic(edges)
  {
    var nodes := Ends(edges) + inside;
    var low := AcyclicHasRank(EdgesWithin(edges, inside), nodes);
    var high := AcyclicHasRank(EdgesOutside(edges, inside), nodes);
    var rank := StackedRank(low, high, inside);
    forall e | e in edges ensures e.0 in rank && e.1 in rank && rank[e.1] < rank[e.0] {
      if e.0 in inside {
        assert e in EdgesWithin(edges, inside);
      } else if e.1 !in inside {
        assert e in EdgesOutside(edges, inside);
      }
    }
    RankedIsAcyclic(edges, rank);
  }

  ghost function StackedRank<V(!new)>(low: map<V, nat>, high: map<V, nat>, inside: set<V>): map<V, nat>
    requires low.Keys == high.Keys
  {
    var b := Bound(low, low.Keys);
    map v | v in low :: if v in inside then low[v] else b + high[v]
  }

  /** A walk cannot leave a set of nodes that no edge leaves. */
  lemma {:induction false} WalkStays<V>(edges: set<(V, V)>, nodes: set<V>, w: seq<V>)
    requires Walk(edges, w) && w[0] in nodes
    requires forall e :: e in edges && e.0 in nodes ==> e.1 in nodes
    ensures w[|w| - 1] in nodes
  {
    if |w| > 1 {
      assert (w[0], w[1]) in edges;
      WalkSlice(edges, w, 1, |w|);
      WalkStays(edges, nodes, w[1..]);
    }
  }

  // ----- intervals -----

  predicate Between(lo: int, i: int, hi: int) {
    lo <= i < hi
  }

  function Interval(lo: int, hi: int): set<int> {
    set i | lo <= i < hi && Between(lo, i, hi)
  }

  lemma {:induction false} IntervalSize(lo: int, hi: int)
    requires lo <= hi
    ensures |Interval(lo, hi)| == hi - lo
    decreases hi - lo
  {
    if lo < hi {
      IntervalSize(lo, hi - 1);
      assert Interval(lo, hi) == Interval(lo, hi - 1) + {hi - 1};
    } else {
      assert Interval(lo, hi) == {};
    }
  }

  lemma IntervalsJoin(a: int, b: int, c: int)
    requires a <= b <= c
    ensures Interval(a, b) + Interval(b, c) == Interval(a, c)
  {}
}
