/** pipeline/engine/api.py: nested statuses, read back from the closure table through shared records. */
module StatusTrees {
  import opened ClosureTables
  import opened CycleSearch
  import opened Options
  import opened Walks

  /** The nodes at distance 1 to depth below a node. */
  ghost predicate Below(f: Forest, node: Id, depth: int, d: Id) {
    exists k: nat :: 1 <= k <= depth && Up(f, d, k) == Some(node)
  }

  /** A status record, which the dicts share. */
  class Status {
    const id: Id
    var children: Option<map<Id, Status>>

    constructor (id: Id)
      ensures this.id == id && children == None
    {
      this.id := id;
      children := None;
    }
  }

  function Selected(rows: seq<Rel>, node: Id, depth: int): seq<Id> {
    if rows == [] then [] else
    var last := rows[|rows| - 1];
    Selected(rows[..|rows| - 1], node, depth)
    + if last.ancestor == node && last.distance <= depth then [last.descendant] else []
  }

  lemma {:induction false} SelectedAre(rows: seq<Rel>, node: Id, depth: int, d: Id)
    ensures d in Selected(rows, node, depth) <==> exists k :: k <= depth && Rel(node, d, k) in rows
  {
    if rows != [] {
      var front, last := rows[..|rows| - 1], rows[|rows| - 1];
      assert rows == front + [last];
      SelectedAre(front, node, depth, d);
      if last.ancestor == node && last.distance <= depth && last.descendant == d {
        assert last == Rel(node, d, last.distance) && last in rows;
      }
    }
  }

  /** The node itself is selected once. */
  lemma {:induction false} SelectedOnce(rows: seq<Rel>, node: Id, depth: int)
    requires Distinct(rows) && forall r :: r in rows && r.ancestor == node && r.descendant == node ==> r.distance == 0
    ensures multiset(Selected(rows, node, depth))[node] <= 1
  {
    if rows != [] {
      var front, last := rows[..|rows| - 1], rows[|rows| - 1];
      assert rows == front + [last];
      DistinctSnoc(front, last);
      SelectedOnce(front, node, depth);
      if last == Rel(node, node, 0) {
        SelectedAre(front, node, depth, node);
      }
    }
  }

  lemma {:induction false} RemoveOnly(s: seq<Id>, x: Id)
    requires multiset(s)[x] <= 1
    ensures forall y :: y in RemoveFirst(s, x) <==> y in s && y != x
  {
    if s != [] {
      assert s == [s[0]] + s[1..];
      if s[0] == x {
        assert multiset(s[1..])[x] == 0;
      } else {
        RemoveOnly(s[1..], x);
      }
    }
  }

  /** Parents and children among the given nodes, in the order of the rows. */
  function Relationships(rows: seq<Rel>, descendants: seq<Id>): seq<(Id, Id)> {
    if rows == [] then [] else
    var last := rows[|rows| - 1];
    Relationships(rows[..|rows| - 1], descendants)
    + if last.descendant in descendants && last.distance == 1 then [(last.ancestor, last.descendant)] else []
  }

  lemma {:induction false} RelationshipsAre(rows: seq<Rel>, descendants: seq<Id>, p: Id, c: Id)
    ensures (p, c) in Relationships(rows, descendants) <==> c in descendants && Rel(p, c, 1) in rows
  {
    if rows != [] {
      var front, last := rows[..|rows| - 1], rows[|rows| - 1];
      assert rows == front + [last];
      RelationshipsAre(front, descendants, p, c);
    }
  }

  /** The descendants that the first query leaves are the nodes below, down to the depth. */
  lemma DescendantsAre(f: Forest, rows: seq<Rel>, node: Id, depth: int, d: Id)
    requires IsForest(f) && IsClosure(f, rows) && node in f.nodes
    ensures d in RemoveFirst(Selected(rows, node, depth), node) <==> d in f.nodes && Below(f, node, depth, d)
  {
    SelectedOnce(rows, node, depth);
    RemoveOnly(Selected(rows, node, depth), node);
    SelectedAre(rows, node, depth, d);
    if d in f.nodes && Below(f, node, depth, d) {
      var k: nat :| 1 <= k <= depth && Up(f, d, k) == Some(node);
      assert Rel(node, d, k) in rows;
    }
    if d != node && exists k :: k <= depth && Rel(node, d, k) in rows {
      var k :| k <= depth && Rel(node, d, k) in rows;
      assert k != 0 ==> Below(f, node, depth, d);
    }
  }

  /** The second query finds each of them under its parent. */
  lemma RelationshipsAreParents(f: Forest, rows: seq<Rel>, node: Id, depth: int, p: Id, c: Id)
    requires IsForest(f) && IsClosure(f, rows) && node in f.nodes
    ensures (p, c) in Relationships(rows, RemoveFirst(Selected(rows, node, depth), node))
       <==> c in f.parent && f.parent[c] == p && Below(f, node, depth, c)
  {
    var descendants := RemoveFirst(Selected(rows, node, depth), node);
    RelationshipsAre(rows, descendants, p, c);
    DescendantsAre(f, rows, node, depth, c);
    assert Up(f, c, 1) == if c in f.parent then Up(f, f.parent[c], 0) else None;
    if c in f.parent && f.parent[c] == p {
      assert Rel(p, c, 1) in rows;
    }
  }

  /** The parent of a node below is the node itself or below it too. */
  lemma ParentIsBelow(f: Forest, node: Id, depth: int, c: Id)
    requires Below(f, node, depth, c)
    ensures c in f.parent && (f.parent[c] == node || Below(f, node, depth, f.parent[c]))
  {
    var k: nat :| 1 <= k <= depth && Up(f, c, k) == Some(node);
    assert Up(f, c, k) == Up(f, f.parent[c], k - 1);
    if k == 1 {
      assert Up(f, f.parent[c], 0) == Some(f.parent[c]);
    }
  }

  // ----- linking the shared records -----

  /** The records of the map, each under its own id. */
  predicate Named(statuses: map<Id, Status>) {
    forall k :: k in statuses ==> statuses[k].id == k
  }

  predicate Mentioned(rels: seq<(Id, Id)>, k: Id) {
    exists i :: 0 <= i < |rels| && (rels[i].0 == k || rels[i].1 == k)
  }

  /** The children of a record after some relationships: the shared records of the children themselves. */
  function ChildrenOf(statuses: map<Id, Status>, rels: seq<(Id, Id)>, k: Id): Option<map<Id, Status>> {
    if Mentioned(rels, k) then Some(map c | c in statuses && (k, c) in rels :: statuses[c]) else None
  }

  function OrEmpty(children: Option<map<Id, Status>>): map<Id, Status> {
    if children.Some? then children.value else map[]
  }

  lemma MentionedSnoc(rels: seq<(Id, Id)>, p: Id, c: Id, k: Id)
    ensures Mentioned(rels + [(p, c)], k) <==> Mentioned(rels, k) || k == p || k == c
  {
    var more := rels + [(p, c)];
    assert more[|rels|] == (p, c);
    if Mentioned(rels, k) {
      var i :| 0 <= i < |rels| && (rels[i].0 == k || rels[i].1 == k);
      assert more[i] == rels[i];
    }
    if Mentioned(more, k) && k != p && k != c {
      var i :| 0 <= i < |more| && (more[i].0 == k || more[i].1 == k);
      assert more[i] == rels[i];
    }
  }

  lemma ChildrenSnoc(statuses: map<Id, Status>, rels: seq<(Id, Id)>, p: Id, c: Id, k: Id)
    requires c in statuses
    ensures ChildrenOf(statuses, rels + [(p, c)], k)
         == if k == p then Some(OrEmpty(ChildrenOf(statuses, rels, k))[c := statuses[c]])
            else if k == c then Some(OrEmpty(ChildrenOf(statuses, rels, k)))
            else ChildrenOf(statuses, rels, k)
  {
    MentionedSnoc(rels, p, c, k);
    PairsMention(rels, k);
    if k == p || Mentioned(rels, k) || k == c {
      var more := ChildrenOf(statuses, rels + [(p, c)], k).value;
      var old_ := OrEmpty(ChildrenOf(statuses, rels, k));
      assert more == if k == p then old_[c := statuses[c]] else old_;
    }
  }

  lemma PairsMention(rels: seq<(Id, Id)>, k: Id)
    ensures forall c :: (k, c) in rels ==> Mentioned(rels, k)
  {
    forall c | (k, c) in rels ensures Mentioned(rels, k) {
      var i :| 0 <= i < |rels| && rels[i] == (k, c);
    }
  }

  /** The setdefault calls for one relationship. */
  method LinkOne(parent: Status, child: Status)
    requires parent != child
    modifies parent`children, child`children
    ensures child.children == Some(OrEmpty(old(child.children)))
    ensures child.id in OrEmpty(old(parent.children)) ==> parent.children == old(parent.children)
    ensures child.id !in OrEmpty(old(parent.children)) ==>
              parent.children == Some(OrEmpty(old(parent.children))[child.id := child])
  {
    if child.children == None {
      child.children := Some(map[]);
    }
    if parent.children == None {
      parent.children := Some(map[]);
    }
    if child.id !in parent.children.value {
      parent.children := Some(parent.children.value[child.id := child]);
    }
  }

  ghost predicate LinkedSoFar(statuses: map<Id, Status>, rels: seq<(Id, Id)>)
    reads statuses.Values
  {
    forall k :: k in statuses ==> statuses[k].children == ChildrenOf(statuses, rels, k)
  }

  /** The loop over the relationships; it gives up on a parent without a record. */
  method Link(statuses: map<Id, Status>, rels: seq<(Id, Id)>) returns (ok: bool)
    requires Named(statuses) && forall k :: k in statuses ==> statuses[k].children == None
    requires forall r :: r in rels ==> r.1 in statuses && r.0 != r.1
    modifies statuses.Values
    ensures ok <==> forall r :: r in rels ==> r.0 in statuses
    ensures ok ==> LinkedSoFar(statuses, rels)
  {
    for i := 0 to |rels|
      invariant forall r :: r in rels[..i] ==> r.0 in statuses
      invariant LinkedSoFar(statuses, rels[..i])
    {
      var (p, c) := rels[i];
      assert rels[i] in rels;
      if p !in statuses {
        return false;
      }
      LinkNext(statuses, rels[..i], p, c, statuses[p], statuses[c]);
      assert rels[..i + 1] == rels[..i] + [(p, c)];
    }
    assert rels[..|rels|] == rels;
    return true;
  }

  method LinkNext(ghost statuses: map<Id, Status>, ghost rels: seq<(Id, Id)>, ghost p: Id, ghost c: Id,
                  parent: Status, child: Status)
    requires Named(statuses) && p in statuses && c in statuses && p != c && LinkedSoFar(statuses, rels)
    requires parent == statuses[p] && child == statuses[c]
    modifies parent`children, child`children
    ensures LinkedSoFar(statuses, rels + [(p, c)])
  {
    forall k | k in statuses
      ensures ChildrenOf(statuses, rels + [(p, c)], k)
           == if k == p then Some(OrEmpty(statuses[k].children)[c := statuses[c]])
              else if k == c then Some(OrEmpty(statuses[k].children)) else statuses[k].children
    {
      ChildrenSnoc(statuses, rels, p, c, k);
    }
    KnownChild(statuses, rels, p, c);
    LinkOne(parent, child);
  }

  /** A child that is there already is the shared record. */
  lemma KnownChild(statuses: map<Id, Status>, rels: seq<(Id, Id)>, p: Id, c: Id)
    requires c in statuses
    ensures var known := ChildrenOf(statuses, rels, p);
            c in OrEmpty(known) ==> known == Some(OrEmpty(known)[c := statuses[c]])
  {
    var known := ChildrenOf(statuses, rels, p);
    if c in OrEmpty(known) {
      assert known.value == known.value[c := statuses[c]];
    }
  }

  // ----- the whole query -----

  datatype Answer = NoSuchNode | NoTree | Tree(root: Status)

  /** The node, and its descendants down to the depth. */
  ghost predicate InTree(f: Forest, node: Id, depth: int, k: Id) {
    k == node || (k in f.nodes && Below(f, node, depth, k))
  }

  /** The records form the part of the tree below the node: each is under its true parent, and nowhere else. */
  ghost predicate IsStatusTree(f: Forest, node: Id, depth: int, statuses: map<Id, Status>)
    reads statuses.Values
  {
    && Named(statuses)
    && (forall k :: k in statuses <==> InTree(f, node, depth, k))
    && (forall k, c :: k in statuses ==>
          (c in OrEmpty(statuses[k].children) <==> c in f.parent && f.parent[c] == k && Below(f, node, depth, c)))
    && (forall k, c :: k in statuses && c in OrEmpty(statuses[k].children) ==>
          c in statuses && OrEmpty(statuses[k].children)[c] == statuses[c])
  }

  method NewStatuses(node: Id, targets: seq<Id>) returns (statuses: map<Id, Status>)
    ensures statuses.Keys == {node} + Elements(targets) && Named(statuses)
    ensures forall k :: k in statuses ==> fresh(statuses[k]) && statuses[k].children == None
  {
    var root := new Status(node);
    statuses := map[node := root];
    for i := 0 to |targets|
      invariant statuses.Keys == {node} + Elements(targets[..i]) && Named(statuses)
      invariant forall k :: k in statuses ==> fresh(statuses[k]) && statuses[k].children == None
    {
      assert targets[..i + 1] == targets[..i] + [targets[i]];
      var status := new Status(targets[i]);
      statuses := statuses[targets[i] := status];
    }
    assert targets[..|targets|] == targets;
  }

  function Children(rels: seq<(Id, Id)>): seq<Id> {
    seq(|rels|, i requires 0 <= i < |rels| => rels[i].1)
  }

  /** get_status_tree; every node of the table has a status. */
  method GetStatusTree(ghost f: Forest, rows: seq<Rel>, node: Id, depth: int)
    returns (answer: Answer, ghost statuses: map<Id, Status>)
    requires IsForest(f) && IsClosure(f, rows)
    ensures answer.NoSuchNode? <==> node !in f.nodes || depth < 0
    ensures answer != NoTree
    ensures answer.Tree? ==> node in statuses && answer.root == statuses[node]
    ensures forall k :: k in statuses ==> fresh(statuses[k])
    ensures answer.Tree? ==> IsStatusTree(f, node, depth, statuses)
  {
    var selected := Selected(rows, node, depth);
    SelectedIff(f, rows, node, depth);
    if selected == [] {
      return NoSuchNode, map[];
    }
    var rels := Relationships(rows, RemoveFirst(selected, node));
    var map_ := NewStatuses(node, Children(rels));
    KeysAreTree(f, rows, node, depth, rels, map_.Keys);
    var ok := Link(map_, rels);
    if !ok {
      return NoTree, map_;
    }
    LinkedIsTree(f, rows, node, depth, rels, map_);
    return Tree(map_[node]), map_;
  }

  lemma SelectedIff(f: Forest, rows: seq<Rel>, node: Id, depth: int)
    requires IsForest(f) && IsClosure(f, rows)
    ensures Selected(rows, node, depth) == [] <==> node !in f.nodes || depth < 0
  {
    var selected := Selected(rows, node, depth);
    SelectedAre(rows, node, depth, node);
    if node in f.nodes && depth >= 0 {
      assert Up(f, node, 0) == Some(node);
      assert Rel(node, node, 0) in rows;
    } else if selected != [] {
      var d := selected[0];
      SelectedAre(rows, node, depth, d);
      var k :| k <= depth && Rel(node, d, k) in rows;
      UpInNodes(f, d, k);
    }
  }

  /** What is linked is the node and everything below it; each parent has a record. */
  lemma KeysAreTree(f: Forest, rows: seq<Rel>, node: Id, depth: int, rels: seq<(Id, Id)>, keys: set<Id>)
    requires IsForest(f) && IsClosure(f, rows) && node in f.nodes
    requires rels == Relationships(rows, RemoveFirst(Selected(rows, node, depth), node))
    requires keys == {node} + Elements(Children(rels))
    ensures forall k :: k in keys <==> InTree(f, node, depth, k)
    ensures forall r :: r in rels ==> r.0 in keys && r.1 in keys && r.0 != r.1
  {
    forall k ensures k in Elements(Children(rels)) <==> k in f.nodes && Below(f, node, depth, k) {
      ChildIff(f, rows, node, depth, rels, k);
    }
    forall r | r in rels ensures r.0 in keys && r.1 in keys && r.0 != r.1 {
      RelationshipsAreParents(f, rows, node, depth, r.0, r.1);
      ParentIsBelow(f, node, depth, r.1);
      assert Up(f, r.1, 1) == Up(f, r.0, 0);
    }
  }

  lemma ChildIff(f: Forest, rows: seq<Rel>, node: Id, depth: int, rels: seq<(Id, Id)>, k: Id)
    requires IsForest(f) && IsClosure(f, rows) && node in f.nodes
    requires rels == Relationships(rows, RemoveFirst(Selected(rows, node, depth), node))
    ensures k in Elements(Children(rels)) <==> k in f.nodes && Below(f, node, depth, k)
  {
    if k in Children(rels) {
      var i :| 0 <= i < |rels| && Children(rels)[i] == k;
      assert (rels[i].0, k) == rels[i] && rels[i] in rels;
      RelationshipsAreParents(f, rows, node, depth, rels[i].0, k);
    }
    if Below(f, node, depth, k) {
      ParentIsBelow(f, node, depth, k);
      RelationshipsAreParents(f, rows, node, depth, f.parent[k], k);
      var i :| 0 <= i < |rels| && rels[i] == (f.parent[k], k);
      assert Children(rels)[i] == k;
    }
  }

  lemma LinkedIsTree(f: Forest, rows: seq<Rel>, node: Id, depth: int, rels: seq<(Id, Id)>, statuses: map<Id, Status>)
    requires IsForest(f) && IsClosure(f, rows) && node in f.nodes && Named(statuses)
    requires rels == Relationships(rows, RemoveFirst(Selected(rows, node, depth), node))
    requires forall k :: k in statuses <==> InTree(f, node, depth, k)
    requires LinkedSoFar(statuses, rels)
    ensures IsStatusTree(f, node, depth, statuses)
  {
    forall k, c | k in statuses
      ensures c in OrEmpty(statuses[k].children) <==> c in f.parent && f.parent[c] == k && Below(f, node, depth, c)
    {
      RelationshipsAreParents(f, rows, node, depth, k, c);
      PairsMention(rels, k);
    }
  }

  // ----- what can be read from the root -----

  /** From records to the records of their children. */
  ghost function TreeEdges(f: Forest, node: Id, depth: int): set<(Id, Id)> {
    set c | c in f.parent && Below(f, node, depth, c) :: (f.parent[c], c)
  }

  /** The records' own children are these edges: what follows is about the records. */
  lemma RecordsAreTheTree(f: Forest, node: Id, depth: int, statuses: map<Id, Status>)
    requires IsForest(f) && IsStatusTree(f, node, depth, statuses)
    ensures RecordEdges(statuses) == TreeEdges(f, node, depth)
  {
    forall c | c in f.parent && Below(f, node, depth, c)
      ensures f.parent[c] in statuses && (f.parent[c], c) in RecordEdges(statuses)
    {
      ParentIsBelow(f, node, depth, c);
    }
    forall e | e in RecordEdges(statuses) ensures e in TreeEdges(f, node, depth) {
      assert e.1 in f.parent && f.parent[e.1] == e.0;
    }
  }

  /** From a record to each of the records among its children. */
  ghost function RecordEdges(statuses: map<Id, Status>): set<(Id, Id)>
    reads statuses.Values
  {
    set k, c | k in statuses && c in OrEmpty(statuses[k].children) :: (k, c)
  }

  /** A way down from the root passes through the ancestors of its end, one by one. */
  lemma {:induction false} WaysDownAreAncestors(f: Forest, node: Id, depth: int, w: seq<Id>, i: nat)
    requires Walk(TreeEdges(f, node, depth), w) && i < |w|
    ensures Up(f, w[|w| - 1], |w| - 1 - i) == Some(w[i])
    decreases |w| - i
  {
    if i < |w| - 1 {
      assert (w[i], w[i + 1]) in TreeEdges(f, node, depth);
      WaysDownAreAncestors(f, node, depth, w, i + 1);
      UpAdd(f, w[|w| - 1], |w| - 2 - i, 1);
      assert Up(f, w[i + 1], 1) == Up(f, f.parent[w[i + 1]], 0);
    }
  }

  /** Each descendant down to the depth is found from the root. */
  lemma {:induction false} FoundFromRoot(f: Forest, node: Id, depth: int, d: Id, k: nat) returns (w: seq<Id>)
    requires IsForest(f) && k <= depth && Up(f, d, k) == Some(node)
    ensures Walk(TreeEdges(f, node, depth), w) && w[0] == node && w[|w| - 1] == d
    decreases k
  {
    if k == 0 {
      w := [d];
    } else {
      assert Below(f, node, depth, d);
      w := FoundFromRoot(f, node, depth, f.parent[d], k - 1);
      assert (f.parent[d], d) in TreeEdges(f, node, depth);
      WalkAppend(TreeEdges(f, node, depth), w, d);
      w := w + [d];
    }
  }

  /** And on one way only. */
  lemma OneWayDown(f: Forest, node: Id, depth: int, w: seq<Id>, v: seq<Id>)
    requires IsForest(f) && Walk(TreeEdges(f, node, depth), w) && Walk(TreeEdges(f, node, depth), v)
    requires w[0] == v[0] == node && w[|w| - 1] == v[|v| - 1]
    ensures w == v
  {
    WaysDownAreAncestors(f, node, depth, w, 0);
    WaysDownAreAncestors(f, node, depth, v, 0);
    OneDistance(f, w[|w| - 1], node, |w| - 1, |v| - 1);
    forall i | 0 <= i < |w| ensures w[i] == v[i] {
      WaysDownAreAncestors(f, node, depth, w, i);
      WaysDownAreAncestors(f, node, depth, v, i);
    }
  }
}
