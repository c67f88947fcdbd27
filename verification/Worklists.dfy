/** The worklist that marks a node when it is dequeued, refined to breadth-first search. */
module Worklists {
  import opened BreadthFirst
  import opened Walks

  // ----- the worklist that marks on dequeue -----

  /** The members of s that are not marked, duplicates included: what the loop puts on the queue. */
  function Unmarked<V>(s: seq<V>, done: set<V>): seq<V> {
    if s == [] then [] else
    (if s[0] in done then [] else [s[0]]) + Unmarked(s[1..], done)
  }

  lemma {:induction false} UnmarkedElements<V>(s: seq<V>, done: set<V>)
    ensures Elements(Unmarked(s, done)) == Elements(s) - done
  {
    if s != [] {
      UnmarkedElements(s[1..], done);
      assert Elements(s) == {s[0]} + Elements(s[1..]);
      assert Elements([s[0]]) == {s[0]};
      ElementsConcat(if s[0] in done then [] else [s[0]], Unmarked(s[1..], done));
    }
  }

  lemma {:induction false} UnmarkedSnoc<V>(s: seq<V>, r: V, marked: set<V>)
    ensures Unmarked(s + [r], marked) == Unmarked(s, marked) + if r in marked then [] else [r]
  {
    if s == [] {
      assert s + [r] == [r];
    } else {
      var head := if s[0] in marked then [] else [s[0]];
      var rest, tail := Unmarked(s[1..], marked), if r in marked then [] else [r];
      UnmarkedSnoc(s[1..], r, marked);
      assert (s + [r])[1..] == s[1..] + [r];
      assert head + (rest + tail) == head + rest + tail;
    }
  }

  /** How many queue entries stand for nodes that are already marked. */
  function Stale<V>(queue: seq<V>, done: set<V>): nat {
    if queue == [] then 0 else (if queue[0] in done then 1 else 0) + Stale(queue[1..], done)
  }

  lemma {:induction false} StaleAppend<V>(queue: seq<V>, more: seq<V>, done: set<V>)
    requires Elements(more) !! done
    ensures Stale(queue + more, done) == Stale(queue, done)
  {
    if queue != [] {
      assert (queue + more)[1..] == queue[1..] + more;
      StaleAppend(queue[1..], more, done);
    } else if more != [] {
      assert queue + more == more;
      assert more[0] in Elements(more) && Elements(more[1..]) <= Elements(more);
      StaleAppend([], more[1..], done);
      assert [] + more[1..] == more[1..];
    }
  }

  ghost predicate Worklist<V>(net: Net<V>, done: seq<V>, queue: seq<V>) {
    && ClosedNet(net)
    && Distinct(done)
    && Elements(done) + Elements(queue) <= net.Keys
    && Successors(net, Elements(done)) <= Elements(done) + Elements(queue)
  }

  lemma PendingState<V>(net: Net<V>, done: seq<V>, queue: seq<V>)
    requires Worklist(net, done, queue)
    ensures State(net, done, Fresh(queue, Elements(done)))
    ensures Elements(done + Fresh(queue, Elements(done))) == Elements(done) + Elements(queue)
  {
    var pending := Fresh(queue, Elements(done));
    FreshElements(queue, Elements(done));
    DistinctConcat(done, pending);
    ElementsConcat(done, pending);
  }

  /** What the textbook order still has to produce when the worklist is in this state. */
  function Rest<V>(net: Net<V>, done: seq<V>, queue: seq<V>): seq<V>
    requires Worklist(net, done, queue)
  {
    PendingState(net, done, queue);
    Bfs(net, done, Fresh(queue, Elements(done)))
  }

  lemma {:induction false} FreshConcat<V>(a: seq<V>, b: seq<V>, seen: set<V>)
    ensures Fresh(a + b, seen) == Fresh(a, seen) + Fresh(b, seen + Elements(a))
  {
    if a == [] {
      assert a + b == b;
      assert seen + Elements(a) == seen;
    } else {
      assert (a + b)[1..] == a[1..] + b;
      var seen' := seen + {a[0]};
      FreshConcat(a[1..], b, seen');
      assert seen' + Elements(a[1..]) == seen + Elements(a);
      assert seen' == seen || a[0] !in seen;
    }
  }

  lemma {:induction false} FreshUnmarked<V>(s: seq<V>, done: set<V>, seen: set<V>)
    requires done <= seen
    ensures Fresh(Unmarked(s, done), seen) == Fresh(s, seen)
  {
    if s != [] {
      FreshUnmarked(s[1..], done, seen);
      FreshUnmarked(s[1..], done, seen + {s[0]});
      var rest := Unmarked(s[1..], done);
      if s[0] in done {
        assert Unmarked(s, done) == [] + rest == rest;
      } else {
        assert Unmarked(s, done) == [s[0]] + rest && ([s[0]] + rest)[1..] == rest;
      }
    }
  }

  /** Dequeuing a node for the first time is one step of the textbook order. */
  lemma FirstDequeue<V>(net: Net<V>, done: seq<V>, queue: seq<V>)
    requires Worklist(net, done, queue) && queue != [] && queue[0] !in done
    ensures queue[0] in net
    ensures var done', queue' := done + [queue[0]], queue[1..] + Unmarked(net[queue[0]], Elements(done + [queue[0]]));
            && Worklist(net, done', queue')
            && Rest(net, done', queue') == Rest(net, done, queue)
            && |net.Keys - Elements(done')| < |net.Keys - Elements(done)|
  {
    FirstDequeueWorklist(net, done, queue);
    var n, done' := queue[0], done + [queue[0]];
    var queue' := queue[1..] + Unmarked(net[n], Elements(done'));
    var pending := Fresh(queue, Elements(done));
    FirstDequeueFresh(net, done, queue);
    PendingState(net, done, queue);
    StateStep(net, done, pending);
    assert Rest(net, done, queue) == Bfs(net, done, pending);
    assert Rest(net, done', queue') == Bfs(net, done', NextPending(net, done, pending));
  }

  lemma FirstDequeueWorklist<V>(net: Net<V>, done: seq<V>, queue: seq<V>)
    requires Worklist(net, done, queue) && queue != [] && queue[0] !in done
    ensures queue[0] in net
    ensures Worklist(net, done + [queue[0]], queue[1..] + Unmarked(net[queue[0]], Elements(done + [queue[0]])))
    ensures |net.Keys - Elements(done + [queue[0]])| < |net.Keys - Elements(done)|
  {
    var n := queue[0];
    assert n in Elements(queue);
    var done' := done + [n];
    var more := Unmarked(net[n], Elements(done'));
    UnmarkedElements(net[n], Elements(done'));
    ElementsSnoc(done, n);
    ElementsConcat(queue[1..], more);
    assert Elements(queue) == {n} + Elements(queue[1..]);
    DistinctConcat(done, [n]);
    assert Elements(more) <= net.Keys;
    assert Successors(net, Elements(done')) == Successors(net, Elements(done)) + Elements(net[n]);
    assert net.Keys - Elements(done') == (net.Keys - Elements(done)) - {n};
  }

  lemma FirstDequeueFresh<V>(net: Net<V>, done: seq<V>, queue: seq<V>)
    requires queue != [] && queue[0] !in done && queue[0] in net
    ensures var done', pending := done + [queue[0]], Fresh(queue, Elements(done));
            && pending != [] && pending[0] == queue[0]
            && Fresh(queue[1..] + Unmarked(net[queue[0]], Elements(done')), Elements(done'))
                == NextPending(net, done, pending)
  {
    var n, done' := queue[0], done + [queue[0]];
    var pending := Fresh(queue, Elements(done));
    var more := Unmarked(net[n], Elements(done'));
    ElementsSnoc(done, n);
    assert pending == [n] + Fresh(queue[1..], Elements(done'));
    var seen := Elements(done') + Elements(queue[1..]);
    FreshConcat(queue[1..], more, Elements(done'));
    FreshUnmarked(net[n], Elements(done'), seen);
    FreshElements(queue, Elements(done));
    ElementsConcat(done, pending);
    assert Elements(queue) == {n} + Elements(queue[1..]);
    assert Elements(done + pending) == seen;
  }

  /** Dequeuing a marked node again changes nothing: its unmarked successors already wait in the queue. */
  lemma StaleDequeue<V>(net: Net<V>, done: seq<V>, queue: seq<V>)
    requires Worklist(net, done, queue) && queue != [] && queue[0] in done
    ensures queue[0] in net
    ensures var queue' := queue[1..] + Unmarked(net[queue[0]], Elements(done));
            && Worklist(net, done, queue')
            && Rest(net, done, queue') == Rest(net, done, queue)
            && Stale(queue', Elements(done)) < Stale(queue, Elements(done))
  {
    var n := queue[0];
    assert n in Elements(queue) && n in Elements(done);
    var more := Unmarked(net[n], Elements(done));
    UnmarkedElements(net[n], Elements(done));
    var queue' := queue[1..] + more;
    ElementsConcat(queue[1..], more);
    assert Elements(queue) == {n} + Elements(queue[1..]);
    assert Elements(net[n]) <= Successors(net, Elements(done));
    StaleAppend(queue[1..], more, Elements(done));
    FreshConcat(queue[1..], more, Elements(done));
    assert Elements(more) <= Elements(done) + Elements(queue[1..]);
    assert Fresh(more, Elements(done) + Elements(queue[1..])) == [] by {
      FreshElements(more, Elements(done) + Elements(queue[1..]));
      assert Elements(Fresh(more, Elements(done) + Elements(queue[1..]))) == {};
      NoElements(Fresh(more, Elements(done) + Elements(queue[1..])));
    }
    assert Fresh(queue', Elements(done)) == Fresh(queue, Elements(done));
  }

  lemma NoElements<V>(s: seq<V>)
    ensures Elements(s) == {} <==> s == []
  {
    if s != [] {
      assert s[0] in Elements(s);
    }
  }

  /** An emptied worklist has produced the textbook order. */
  lemma EmptyWorklist<V>(net: Net<V>, done: seq<V>)
    requires Worklist(net, done, [])
    ensures Rest(net, done, []) == done
  {}

  // ----- runs of the worklist -----

  /** The ids taken from the queue so far, repetitions included, and the queue. */
  datatype Work<V> = Work(popped: seq<V>, queue: seq<V>)

  /** Each element where it first occurs. */
  function Marked<V(==)>(popped: seq<V>): seq<V> {
    if popped == [] then [] else
    var done, last := Marked(popped[..|popped| - 1]), popped[|popped| - 1];
    if last in done then done else done + [last]
  }

  function NextWork<V(==)>(net: Net<V>, w: Work<V>): Work<V>
    requires w.queue != [] && w.queue[0] in net
  {
    var popped := w.popped + [w.queue[0]];
    Work(popped, w.queue[1..] + Unmarked(net[w.queue[0]], Elements(popped)))
  }

  function WorkAfter<V(==)>(net: Net<V>, source: V, turns: nat): Work<V> {
    if turns == 0 then Work([], [source]) else
    var w := WorkAfter(net, source, turns - 1);
    if w.queue == [] || w.queue[0] !in net then w else NextWork(net, w)
  }

  lemma {:induction false} MarkedElements<V>(popped: seq<V>)
    ensures Elements(Marked(popped)) == Elements(popped)
  {
    if popped != [] {
      var before, last := popped[..|popped| - 1], popped[|popped| - 1];
      assert popped == before + [last];
      MarkedElements(before);
      ElementsSnoc(before, last);
      ElementsSnoc(Marked(before), last);
    }
  }

  lemma MarkedSnoc<V>(popped: seq<V>, v: V)
    ensures Marked(popped + [v]) == if v in popped then Marked(popped) else Marked(popped) + [v]
  {
    assert (popped + [v])[..|popped|] == popped;
    MarkedElements(popped);
    assert v in Elements(popped) <==> v in Elements(Marked(popped));
  }

  ghost predicate Sound<V>(net: Net<V>, order: seq<V>, w: Work<V>) {
    && Worklist(net, Marked(w.popped), w.queue)
    && Rest(net, Marked(w.popped), w.queue) == order
  }

  ghost predicate Lower<V>(net: Net<V>, w': Work<V>, w: Work<V>) {
    || |net.Keys - Elements(w'.popped)| < |net.Keys - Elements(w.popped)|
    || (Elements(w'.popped) == Elements(w.popped)
        && Stale(w'.queue, Elements(w.popped)) < Stale(w.queue, Elements(w.popped)))
  }

  /** A turn keeps the worklist sound and lowers (unmarked nodes, queued marked entries) lexicographically. */
  lemma SoundStep<V>(net: Net<V>, order: seq<V>, w: Work<V>)
    requires Sound(net, order, w) && w.queue != []
    ensures w.queue[0] in net
    ensures Sound(net, order, NextWork(net, w)) && Lower(net, NextWork(net, w), w)
  {
    var done, n := Marked(w.popped), w.queue[0];
    MarkedElements(w.popped);
    MarkedElements(w.popped + [n]);
    MarkedSnoc(w.popped, n);
    assert n in w.popped <==> n in done by {
      assert n in Elements(w.popped) <==> n in Elements(done);
    }
    if n in done {
      StaleDequeue(net, done, w.queue);
    } else {
      FirstDequeue(net, done, w.queue);
    }
  }

  lemma SoundInOrder<V>(net: Net<V>, order: seq<V>, w: Work<V>)
    requires Sound(net, order, w) && w.queue != []
    ensures w.queue[0] in order
  {
    var done, n := Marked(w.popped), w.queue[0];
    PendingState(net, done, w.queue);
    BfsExtends(net, done, Fresh(w.queue, Elements(done)));
    assert n in Elements(w.queue);
    assert n in Elements(done + Fresh(w.queue, Elements(done)));
  }

  lemma {:induction false} SoundAfter<V>(net: Net<V>, source: V, turns: nat)
    requires ClosedNet(net) && source in net
    ensures Sound(net, Order(net, source), WorkAfter(net, source, turns))
  {
    if turns == 0 {
      FreshWorklist(net, source);
    } else {
      SoundAfter(net, source, turns - 1);
      SoundNext(net, Order(net, source), WorkAfter(net, source, turns - 1), WorkAfter(net, source, turns));
    }
  }

  lemma SoundNext<V>(net: Net<V>, order: seq<V>, w: Work<V>, w': Work<V>)
    requires Sound(net, order, w)
    requires w' == if w.queue == [] || w.queue[0] !in net then w else NextWork(net, w)
    ensures Sound(net, order, w')
  {
    if w.queue != [] {
      SoundStep(net, order, w);
    }
  }

  /** What a loop has to know before it takes a turn. */
  lemma Turn<V>(net: Net<V>, source: V, turns: nat, w: Work<V>)
    requires ClosedNet(net) && source in net
    requires WorkAfter(net, source, turns) == w && w.queue != []
    ensures w.queue[0] in net && w.queue[0] in Order(net, source)
    ensures WorkAfter(net, source, turns + 1) == NextWork(net, w)
    ensures Lower(net, NextWork(net, w), w)
  {
    SoundAfter(net, source, turns);
    SoundStep(net, Order(net, source), w);
    SoundInOrder(net, Order(net, source), w);
  }

  /** What a loop knows when its queue is empty: it has produced the textbook order, closed under successors. */
  lemma LastTurn<V>(net: Net<V>, source: V, turns: nat, w: Work<V>)
    requires ClosedNet(net) && source in net
    requires WorkAfter(net, source, turns) == w && w.queue == []
    ensures Marked(w.popped) == Order(net, source)
    ensures Successors(net, Elements(w.popped)) <= Elements(w.popped)
  {
    SoundAfter(net, source, turns);
    EmptyWorklist(net, Marked(w.popped));
    MarkedElements(w.popped);
    assert Elements<V>([]) == {};
  }

  lemma FreshWorklist<V>(net: Net<V>, source: V)
    requires ClosedNet(net) && source in net
    ensures Worklist(net, [], [source])
    ensures Rest(net, [], [source]) == Order(net, source)
  {
    assert Elements<V>([]) == {};
    assert Fresh([source], {}) == [source];
  }
}
