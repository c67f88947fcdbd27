/** pipeline/engine/models/core.py: a tree of nodes kept as a closure table. */
module ClosureTables {
  import opened Options
  import opened Walks

  /** A row: the ancestor is so many steps above the descendant. */
  datatype Rel = Rel(ancestor: Id, descendant: Id, distance: int)

  /** A finite forest: each node's parent, if it has one. */
  datatype Forest = Forest(nodes: set<Id>, parent: map<Id, Id>)

  /** The node so many steps up. */
  function Up(f: Forest, d: Id, k: nat): Option<Id>
    decreases k
  {
    if k == 0 then Some(d) else if d in f.parent then Up(f, f.parent[d], k - 1) else None
  }

  ghost predicate IsForest(f: Forest) {
    && (forall d :: d in f.parent ==> d in f.nodes && f.parent[d] in f.nodes)
    && (forall d, k: nat :: Up(f, d, k) == Some(d) ==> k == 0)
  }

  /** The table holds each pair of ancestor and descendant once, with its distance. */
  ghost predicate IsClosure(f: Forest, rows: seq<Rel>) {
    && Distinct(rows)
    && (forall r :: r in rows ==>
          r.distance >= 0 && r.descendant in f.nodes && Up(f, r.descendant, r.distance) == Some(r.ancestor))
    && (forall a, d, k: nat :: d in f.nodes && Up(f, d, k) == Some(a) ==> Rel(a, d, k) in rows)
  }

  lemma {:induction false} UpAdd(f: Forest, d: Id, j: nat, k: nat)
    requires Up(f, d, j).Some?
    ensures Up(f, d, j + k) == Up(f, Up(f, d, j).value, k)
    decreases j
  {
    if j > 0 {
      UpAdd(f, f.parent[d], j - 1, k);
    }
  }

  lemma {:induction false} UpInNodes(f: Forest, d: Id, k: nat)
    requires IsForest(f) && d in f.nodes && Up(f, d, k).Some?
    ensures Up(f, d, k).value in f.nodes
    decreases k
  {
    if k > 0 {
      UpInNodes(f, f.parent[d], k - 1);
    }
  }

  /** A node is at only one distance below another. */
  lemma OneDistance(f: Forest, d: Id, a: Id, j: nat, k: nat)
    requires IsForest(f) && Up(f, d, j) == Some(a) && Up(f, d, k) == Some(a)
    ensures j == k
  {
    NotFurther(f, d, a, j, k);
    NotFurther(f, d, a, k, j);
  }

  lemma NotFurther(f: Forest, d: Id, a: Id, j: nat, k: nat)
    requires IsForest(f) && Up(f, d, j) == Some(a) && Up(f, d, k) == Some(a)
    ensures k <= j
  {
    if j <= k {
      UpAdd(f, d, j, k - j);
      assert Up(f, a, k - j) == Some(a);
    }
  }

  // ----- build_relationship -----

  /** A new node below another one, or a new root when both are the same. */
  function Grown(f: Forest, ancestor: Id, descendant: Id): Forest {
    Forest(f.nodes + {descendant}, if ancestor == descendant then f.parent else f.parent[descendant := ancestor])
  }

  lemma {:induction false} OldUp(f: Forest, a: Id, d: Id, e: Id, k: nat)
    requires IsForest(f) && e in f.nodes && d !in f.nodes
    ensures Up(Grown(f, a, d), e, k) == Up(f, e, k)
    decreases k
  {
    if k > 0 && e in f.parent {
      OldUp(f, a, d, f.parent[e], k - 1);
    }
  }

  lemma NewUp(f: Forest, a: Id, d: Id, k: nat)
    requires IsForest(f) && d !in f.nodes && (a in f.nodes || a == d)
    ensures Up(Grown(f, a, d), d, k) == if k == 0 then Some(d) else if a == d then None else Up(f, a, k - 1)
  {
    if k > 0 && a != d {
      OldUp(f, a, d, a, k - 1);
    }
  }

  lemma GrownIsForest(f: Forest, a: Id, d: Id)
    requires IsForest(f) && d !in f.nodes && (a in f.nodes || a == d)
    ensures IsForest(Grown(f, a, d))
  {
    var f' := Grown(f, a, d);
    forall e, k: nat | Up(f', e, k) == Some(e) ensures k == 0 {
      if e == d {
        NewUp(f, a, d, k);
        if k > 0 {
          UpInNodes(f, a, k - 1);
        }
      } else if e in f.nodes {
        OldUp(f, a, d, e, k);
      }
    }
  }

  function NewRows(rows: seq<Rel>, a: Id, d: Id): seq<Rel> {
    if rows == [] then [] else
    var last := rows[|rows| - 1];
    NewRows(rows[..|rows| - 1], a, d) + if last.descendant == a then [Rel(last.ancestor, d, last.distance + 1)] else []
  }

  lemma {:induction false} NewRowsAre(rows: seq<Rel>, a: Id, d: Id, r: Rel)
    ensures r in NewRows(rows, a, d) <==> r.descendant == d && Rel(r.ancestor, a, r.distance - 1) in rows
  {
    if rows != [] {
      var last := rows[|rows| - 1];
      assert rows == rows[..|rows| - 1] + [last];
      NewRowsAre(rows[..|rows| - 1], a, d, r);
      assert last.descendant == a ==> (Rel(last.ancestor, d, last.distance + 1) == r <==>
                                       r.descendant == d && last == Rel(r.ancestor, a, r.distance - 1));
    }
  }

  lemma {:induction false} NewRowsDistinct(rows: seq<Rel>, a: Id, d: Id)
    requires Distinct(rows)
    ensures Distinct(NewRows(rows, a, d))
  {
    if rows != [] {
      var front, last := rows[..|rows| - 1], rows[|rows| - 1];
      assert rows == front + [last];
      DistinctSnoc(front, last);
      NewRowsDistinct(front, a, d);
      if last.descendant == a {
        NewRowsAre(front, a, d, Rel(last.ancestor, d, last.distance + 1));
        DistinctSnoc(NewRows(front, a, d), Rel(last.ancestor, d, last.distance + 1));
      } else {
        assert NewRows(rows, a, d) == NewRows(front, a, d);
      }
    }
  }

  /** build_relationship: the rows of the new node, unless the pair is known already. */
  method BuildRelationship(rows: seq<Rel>, a: Id, d: Id) returns (rows': seq<Rel>)
    ensures rows' == if (exists k :: Rel(a, d, k) in rows) then rows else rows + [Rel(d, d, 0)] + NewRows(rows, a, d)
  {
    var created := [Rel(d, d, 0)];
    var known := false;
    for i := 0 to |rows|
      invariant known <==> exists j :: 0 <= j < i && rows[j].ancestor == a && rows[j].descendant == d
      invariant created == [Rel(d, d, 0)] + NewRows(rows[..i], a, d)
    {
      assert rows[..i + 1][..i] == rows[..i];
      if rows[i].ancestor == a && rows[i].descendant == d {
        known := true;
      }
      if rows[i].descendant == a {
        created := created + [Rel(rows[i].ancestor, d, rows[i].distance + 1)];
      }
    }
    assert rows[..|rows|] == rows;
    if known {
      ghost var j :| 0 <= j < |rows| && rows[j].ancestor == a && rows[j].descendant == d;
      assert rows[j] == Rel(a, d, rows[j].distance);
      return rows;
    }
    return rows + created;
  }

  /** The table stays the closure of the grown tree. */
  lemma BuildKeepsClosure(f: Forest, rows: seq<Rel>, a: Id, d: Id)
    requires IsForest(f) && IsClosure(f, rows) && d !in f.nodes && (a in f.nodes || a == d)
    ensures IsClosure(Grown(f, a, d), rows + [Rel(d, d, 0)] + NewRows(rows, a, d))
    ensures forall k :: Rel(a, d, k) !in rows
  {
    BuiltRows(f, rows, a, d);
    BuiltDistinct(f, rows, a, d);
    BuiltComplete(f, rows, a, d);
  }

  lemma BuiltRows(f: Forest, rows: seq<Rel>, a: Id, d: Id)
    requires IsForest(f) && IsClosure(f, rows) && d !in f.nodes && (a in f.nodes || a == d)
    ensures forall r :: r in rows + [Rel(d, d, 0)] + NewRows(rows, a, d) ==>
              r.distance >= 0 && r.descendant in Grown(f, a, d).nodes
              && Up(Grown(f, a, d), r.descendant, r.distance) == Some(r.ancestor)
  {
    forall r | r in rows + [Rel(d, d, 0)] + NewRows(rows, a, d)
      ensures r.distance >= 0 && r.descendant in Grown(f, a, d).nodes
              && Up(Grown(f, a, d), r.descendant, r.distance) == Some(r.ancestor)
    {
      if r in rows {
        OldUp(f, a, d, r.descendant, r.distance);
      } else if r != Rel(d, d, 0) {
        NewRowsAre(rows, a, d, r);
        NewUp(f, a, d, r.distance);
      }
    }
  }

  lemma BuiltDistinct(f: Forest, rows: seq<Rel>, a: Id, d: Id)
    requires IsForest(f) && IsClosure(f, rows) && d !in f.nodes && (a in f.nodes || a == d)
    ensures Distinct(rows + [Rel(d, d, 0)] + NewRows(rows, a, d))
  {
    NewRowsDistinct(rows, a, d);
    DistinctSnoc(rows, Rel(d, d, 0));
    ElementsSnoc(rows, Rel(d, d, 0));
    forall r | r in Elements(NewRows(rows, a, d)) ensures r !in Elements(rows) + {Rel(d, d, 0)} {
      NewRowsAre(rows, a, d, r);
    }
    DistinctConcat(rows + [Rel(d, d, 0)], NewRows(rows, a, d));
  }

  lemma BuiltComplete(f: Forest, rows: seq<Rel>, a: Id, d: Id)
    requires IsForest(f) && IsClosure(f, rows) && d !in f.nodes && (a in f.nodes || a == d)
    ensures var f' := Grown(f, a, d);
            forall b, e, k: nat :: e in f'.nodes && Up(f', e, k) == Some(b) ==>
              Rel(b, e, k) in rows + [Rel(d, d, 0)] + NewRows(rows, a, d)
  {
    var f' := Grown(f, a, d);
    forall b, e, k: nat | e in f'.nodes && Up(f', e, k) == Some(b)
      ensures Rel(b, e, k) in rows + [Rel(d, d, 0)] + NewRows(rows, a, d)
    {
      if e == d {
        NewUp(f, a, d, k);
        if k > 0 {
          NewRowsAre(rows, a, d, Rel(b, d, k));
        }
      } else {
        OldUp(f, a, d, e, k);
      }
    }
  }
}
