/** pipeline/models.py: unfolding subprocesses, renaming what was unfolded, and collecting node ids. */
module Unfolding {
  import opened Options
  import opened RefGraphs
  import opened TemplateManagers
  import opened TemplateRuns
  import opened Templates
  import opened Walks

  // ----- what an unfolding is -----

  /** Some renaming of the data, with every subprocess holding an unfolding of the data it refers to. */
  ghost predicate Mirrors(store: Store, data: Pipeline, r: Pipeline)
    decreases r
  {
    && |r.gateways| == |data.gateways|
    && |r.activities| == |data.activities|
    && forall i :: 0 <= i < |r.activities| ==> MirrorsActivity(store, data.activities[i], r.activities[i])
  }

  ghost predicate MirrorsActivity(store: Store, a: Activity, r: Activity)
    decreases r
  {
    match a.kind
    case Service => r.kind == Service
    case SubProcess(ref, _) =>
      && r.kind.SubProcess? && r.kind.ref == ref && r.kind.embedded.Some?
      && Resolves(store, ref) && Mirrors(store, DataOf(store, ref), r.kind.embedded.value)
  }

  /** The nodes of one level. */
  function Width(p: Pipeline): nat {
    2 + |p.activities| + |p.gateways|
  }

  /** The nodes of all levels. */
  function Size(p: Pipeline): nat
    decreases p
  {
    Width(p) + SubsSize(p.activities)
  }

  function SubsSize(activities: seq<Activity>): nat
    decreases activities
  {
    if activities == [] then 0
    else SubsSize(activities[..|activities| - 1]) + SubSize(activities[|activities| - 1])
  }

  function SubSize(a: Activity): nat
    decreases a
  {
    if a.kind.SubProcess? && a.kind.embedded.Some? then Size(a.kind.embedded.value) else 0
  }

  /** The ids of one level are n, n + 1 and so on: start, end, activities, gateways. */
  predicate LevelNumbered(p: Pipeline, n: nat) {
    && p.startEvent == n && p.endEvent == n + 1
    && (forall i :: 0 <= i < |p.activities| ==> p.activities[i].id == n + 2 + i)
    && (forall i :: 0 <= i < |p.gateways| ==> p.gateways[i] == n + 2 + |p.activities| + i)
  }

  /** Each level takes the next fresh ids, and an embedded pipeline has the id of its host. */
  predicate Numbered(p: Pipeline, n: nat)
    decreases p
  {
    LevelNumbered(p, n) && SubsNumbered(p.activities, n + Width(p))
  }

  predicate SubsNumbered(activities: seq<Activity>, n: nat)
    decreases activities
  {
    activities == [] ||
    (var rest := activities[..|activities| - 1];
     SubsNumbered(rest, n) && SubNumbered(activities[|activities| - 1], n + SubsSize(rest)))
  }

  predicate SubNumbered(a: Activity, n: nat)
    decreases a
  {
    a.kind.SubProcess? && a.kind.embedded.Some? ==>
      Numbered(a.kind.embedded.value, n) && a.kind.embedded.value.id == a.id
  }

  // ----- the ids of an unfolding -----

  function NodeIds(p: Pipeline): set<Id>
    decreases p
  {
    {p.startEvent, p.endEvent} + Elements(p.gateways) + ActivityIds(p.activities)
  }

  function ActivityIds(activities: seq<Activity>): set<Id>
    decreases activities
  {
    if activities == [] then {}
    else ActivityIds(activities[..|activities| - 1]) + OwnIds(activities[|activities| - 1])
  }

  function OwnIds(a: Activity): set<Id>
    decreases a
  {
    {a.id} + if a.kind.SubProcess? && a.kind.embedded.Some? then NodeIds(a.kind.embedded.value) else {}
  }

  lemma {:induction false} NumberedIds(p: Pipeline, n: nat)
    requires Numbered(p, n)
    ensures NodeIds(p) == Interval(n, n + Size(p))
    decreases p
  {
    NumberedActivityIds(p.activities, n + 2, n + Width(p));
    var lo := n + 2 + |p.activities|;
    assert Elements(p.gateways) == Interval(lo, lo + |p.gateways|) by {
      forall x | x in Interval(lo, lo + |p.gateways|) ensures x in Elements(p.gateways) {
        assert p.gateways[x - lo] == x;
      }
    }
  }

  lemma {:induction false} NumberedActivityIds(activities: seq<Activity>, host: nat, n: nat)
    requires forall i :: 0 <= i < |activities| ==> activities[i].id == host + i
    requires SubsNumbered(activities, n)
    ensures ActivityIds(activities) == Interval(host, host + |activities|) + Interval(n, n + SubsSize(activities))
    decreases activities
  {
    if activities != [] {
      var rest, last := activities[..|activities| - 1], activities[|activities| - 1];
      NumberedActivityIds(rest, host, n);
      NumberedOwnIds(last, n + SubsSize(rest));
    }
  }

  lemma {:induction false} NumberedOwnIds(a: Activity, n: nat)
    requires SubNumbered(a, n)
    ensures OwnIds(a) == {a.id} + Interval(n, n + SubSize(a))
    decreases a
  {
    if a.kind.SubProcess? && a.kind.embedded.Some? {
      NumberedIds(a.kind.embedded.value, n);
    }
  }

  /** No id occurs twice at any depth: there are as many ids as nodes. */
  lemma IdsAreFresh(p: Pipeline, n: nat)
    requires Numbered(p, n)
    ensures |NodeIds(p)| == Size(p)
  {
    NumberedIds(p, n);
    IntervalSize(n, n + Size(p));
  }

  /** _get_node_id_set: adds every id of every level to the set it is given. */
  method NodeIdSet(ids: set<Id>, data: Pipeline) returns (ids': set<Id>)
    ensures ids' == ids + NodeIds(data)
    decreases data
  {
    ids' := ids + {data.startEvent} + {data.endEvent};
    for i := 0 to |data.gateways|
      invariant ids' == ids + {data.startEvent, data.endEvent} + Elements(data.gateways[..i])
    {
      assert data.gateways[..i + 1] == data.gateways[..i] + [data.gateways[i]];
      ids' := ids' + {data.gateways[i]};
    }
    assert data.gateways[..|data.gateways|] == data.gateways;
    ghost var before := ids';
    for i := 0 to |data.activities|
      invariant ids' == before + ActivityIds(data.activities[..i])
    {
      var a := data.activities[i];
      assert data.activities[..i + 1][..i] == data.activities[..i];
      ids' := ids' + {a.id};
      if a.kind.SubProcess? && a.kind.embedded.Some? {
        ids' := NodeIdSet(ids', a.kind.embedded.value);
      }
    }
    assert data.activities[..|data.activities|] == data.activities;
  }

  // ----- when an unfolding exists -----

  lemma MirrorOfRef(store: Store, data: Pipeline, r: Pipeline, s: Ref) returns (sub: Pipeline)
    requires Mirrors(store, data, r) && s in Refs(data)
    ensures Resolves(store, s) && Mirrors(store, DataOf(store, s), sub) && Size(sub) < Size(r)
  {
    var i := RefsInHas(data.activities, s);
    assert MirrorsActivity(store, data.activities[i], r.activities[i]);
    sub := r.activities[i].kind.embedded.value;
    SubIsSmaller(r.activities, i);
  }

  lemma {:induction false} RefsInHas(activities: seq<Activity>, s: Ref) returns (i: nat)
    requires s in RefsIn(activities)
    ensures i < |activities| && activities[i].kind.SubProcess? && activities[i].kind.ref == s
  {
    if activities[0].kind.SubProcess? && activities[0].kind.ref == s {
      i := 0;
    } else {
      i := RefsInHas(activities[1..], s);
      i := i + 1;
    }
  }

  lemma {:induction false} HasRefsIn(activities: seq<Activity>, i: nat)
    requires i < |activities| && activities[i].kind.SubProcess?
    ensures activities[i].kind.ref in RefsIn(activities)
  {
    if i > 0 {
      HasRefsIn(activities[1..], i - 1);
    }
  }

  lemma {:induction false} SubIsSmaller(activities: seq<Activity>, i: nat)
    requires i < |activities|
    ensures SubSize(activities[i]) <= SubsSize(activities)
  {
    if i < |activities| - 1 {
      SubIsSmaller(activities[..|activities| - 1], i);
    }
  }

  /** Along a walk of stored references mirrors get smaller. */
  lemma {:induction false} MirrorShrinks(store: Store, w: seq<Ref>, r: Pipeline) returns (sub: Pipeline)
    requires Walk(StoreEdges(store), w) && Resolves(store, w[0]) && Mirrors(store, DataOf(store, w[0]), r)
    ensures Resolves(store, w[|w| - 1]) && Mirrors(store, DataOf(store, w[|w| - 1]), sub)
    ensures Size(sub) < Size(r) || (|w| == 1 && sub == r)
  {
    if |w| == 1 {
      sub := r;
    } else {
      assert (w[0], w[1]) in StoreEdges(store);
      sub := MirrorOfRef(store, DataOf(store, w[0]), r, w[1]);
      WalkSlice(StoreEdges(store), w, 1, |w|);
      sub := MirrorShrinks(store, w[1..], sub);
    }
  }

  lemma {:induction false} NoMirrorOnCycle(store: Store, w: seq<Ref>, r: Pipeline)
    requires ClosedWalk(StoreEdges(store), w) && Resolves(store, w[0])
    ensures !Mirrors(store, DataOf(store, w[0]), r)
    decreases Size(r)
  {
    if Mirrors(store, DataOf(store, w[0]), r) {
      var sub := MirrorShrinks(store, w, r);
      NoMirrorOnCycle(store, w, sub);
    }
  }

  lemma NoRootEdges(store: Store, first: seq<Ref>)
    ensures ListedEdges(store, first, None) == StoreEdges(store)
  {}

  lemma ReachedMirror(store: Store, data: Pipeline, r: Pipeline, s: Ref) returns (sub: Pipeline)
    requires Mirrors(store, data, r) && Reached(store, Refs(data), None, s)
    ensures Resolves(store, s) && Mirrors(store, DataOf(store, s), sub)
  {
    NoRootEdges(store, Refs(data));
    var w :| Walk(StoreEdges(store), w) && w[0] in Refs(data) && w[|w| - 1] == s;
    sub := MirrorOfRef(store, data, r, w[0]);
    sub := MirrorShrinks(store, w, sub);
  }

  lemma MirrorMeansAdmissible(store: Store, data: Pipeline, r: Pipeline)
    requires Mirrors(store, data, r)
    ensures Admissible(store, Refs(data), None)
  {
    var first := Refs(data);
    NoRootEdges(store, first);
    forall s | Reached(store, first, None, s) ensures Resolves(store, s) {
      var _ := ReachedMirror(store, data, r, s);
    }
    forall w | ClosedWalk(VisitedEdges(store, first, None), w) ensures false {
      assert (w[0], w[1]) in VisitedEdges(store, first, None);
      var sub := ReachedMirror(store, data, r, w[0]);
      assert ClosedWalk(StoreEdges(store), w);
      NoMirrorOnCycle(store, w, sub);
    }
  }

  /** Each stored reference ranks below what refers to it: the measure of the recursion. */
  ghost predicate Ranked(store: Store, rank: map<Ref, nat>) {
    forall s, u :: s in rank && u in StoredRefs(store, s) ==> u in rank && rank[u] < rank[s]
  }

  ghost predicate RankedBelow(refs: seq<Ref>, rank: map<Ref, nat>, b: nat) {
    forall s :: s in refs ==> s in rank && rank[s] < b
  }

  ghost function ReachedSet(store: Store, first: seq<Ref>): set<Ref> {
    set s | s in Elements(first) + Ends(VisitedEdges(store, first, None)) && Reached(store, first, None, s)
  }

  lemma ReachedStaysRanked(store: Store, first: seq<Ref>, s: Ref, u: Ref)
    requires s in ReachedSet(store, first) && u in StoredRefs(store, s)
    ensures (s, u) in VisitedEdges(store, first, None) && u in ReachedSet(store, first)
  {
    NodesResolve(store, s);
    ReachedStep(store, first, None, s, u);
    assert (s, u) in VisitedEdges(store, first, None);
  }

  lemma FirstInReachedSet(store: Store, first: seq<Ref>)
    ensures Elements(first) <= ReachedSet(store, first)
  {
    forall s | s in first ensures s in ReachedSet(store, first) {
      FirstIsReached(store, first, None, s);
    }
  }

  lemma EdgesInReachedSet(store: Store, first: seq<Ref>, e: (Ref, Ref))
    requires e in VisitedEdges(store, first, None)
    ensures e.0 in ReachedSet(store, first) && e.1 in ReachedSet(store, first)
  {
    assert e.0 in Ends(VisitedEdges(store, first, None));
    ReachedStaysRanked(store, first, e.0, e.1);
  }

  lemma VisitedRanksAreRanked(store: Store, edges: set<(Ref, Ref)>, rank: map<Ref, nat>)
    requires Ranks(edges, rank)
    requires forall s, u :: s in rank && u in StoredRefs(store, s) ==> (s, u) in edges
    ensures Ranked(store, rank)
  {}

  lemma AcyclicIsRanked(store: Store, first: seq<Ref>) returns (rank: map<Ref, nat>, b: nat)
    requires !Cyclic(VisitedEdges(store, first, None))
    ensures Ranked(store, rank) && RankedBelow(first, rank, b)
  {
    forall e | e in VisitedEdges(store, first, None)
      ensures e.0 in ReachedSet(store, first) && e.1 in ReachedSet(store, first)
    {
      EdgesInReachedSet(store, first, e);
    }
    rank := AcyclicHasRank(VisitedEdges(store, first, None), ReachedSet(store, first));
    forall s, u | s in rank && u in StoredRefs(store, s) ensures (s, u) in VisitedEdges(store, first, None) {
      ReachedStaysRanked(store, first, s, u);
    }
    VisitedRanksAreRanked(store, VisitedEdges(store, first, None), rank);
    b := Bound(rank, rank.Keys);
    FirstInReachedSet(store, first);
    BelowBound(first, rank, b);
  }

  lemma BelowBound(first: seq<Ref>, rank: map<Ref, nat>, b: nat)
    requires Elements(first) <= rank.Keys && forall s :: s in rank.Keys ==> rank[s] < b
    ensures RankedBelow(first, rank, b)
  {}

  ghost predicate Unfoldable(store: Store, data: Pipeline) {
    exists r :: Mirrors(store, data, r)
  }

  lemma IsUnfoldable(store: Store, data: Pipeline, r: Pipeline)
    requires Mirrors(store, data, r)
    ensures Unfoldable(store, data)
  {}

  /** Finite unfoldings exist exactly for the data that a validation without a root accepts. */
  lemma UnfoldableIff(store: Store, data: Pipeline)
    ensures Unfoldable(store, data) <==> Admissible(store, Refs(data), None)
  {
    if Unfoldable(store, data) {
      var r :| Mirrors(store, data, r);
      MirrorMeansAdmissible(store, data, r);
    }
    if Admissible(store, Refs(data), None) {
      var rank, b := AcyclicIsRanked(store, Refs(data));
      forall s | s in Refs(data) ensures Reached(store, Refs(data), None, s) {
        FirstIsReached(store, Refs(data), None, s);
      }
      var r := SomeMirror(store, data, rank, b, Refs(data));
      IsUnfoldable(store, data, r);
    }
  }

  lemma {:induction false} SomeMirror(store: Store, data: Pipeline, rank: map<Ref, nat>, b: nat, first: seq<Ref>)
    returns (r: Pipeline)
    requires Ranked(store, rank) && RankedBelow(Refs(data), rank, b)
    requires forall s :: s in Refs(data) ==> Reached(store, first, None, s)
    requires Admissible(store, first, None)
    ensures Mirrors(store, data, r)
    decreases b, |data.activities| + 1
  {
    var activities := SomeMirrors(store, data.activities, rank, b, first);
    r := Pipeline(data.id, 0, 0, data.gateways, activities);
  }

  lemma {:induction false} SomeMirrors(store: Store, activities: seq<Activity>, rank: map<Ref, nat>, b: nat,
                                       first: seq<Ref>) returns (rs: seq<Activity>)
    requires Ranked(store, rank) && RankedBelow(RefsIn(activities), rank, b)
    requires forall s :: s in RefsIn(activities) ==> Reached(store, first, None, s)
    requires Admissible(store, first, None)
    ensures |rs| == |activities| && forall i :: 0 <= i < |rs| ==> MirrorsActivity(store, activities[i], rs[i])
    decreases b, |activities|
  {
    if activities == [] {
      rs := [];
    } else {
      var r := SomeMirrorOf(store, activities[0], rank, b, first);
      rs := SomeMirrors(store, activities[1..], rank, b, first);
      rs := [r] + rs;
    }
  }

  lemma {:induction false} SomeMirrorOf(store: Store, a: Activity, rank: map<Ref, nat>, b: nat, first: seq<Ref>)
    returns (r: Activity)
    requires Ranked(store, rank) && Admissible(store, first, None)
    requires a.kind.SubProcess? ==> a.kind.ref in rank && rank[a.kind.ref] < b
    requires a.kind.SubProcess? ==> Reached(store, first, None, a.kind.ref)
    ensures MirrorsActivity(store, a, r)
    decreases b, 0
  {
    if a.kind.SubProcess? {
      var s := a.kind.ref;
      NodesResolve(store, s);
      forall u | u in StoredRefs(store, s) ensures Reached(store, first, None, u) {
        ReachedStep(store, first, None, s, u);
      }
      var sub := SomeMirror(store, DataOf(store, s), rank, rank[s], first);
      r := Activity(a.id, SubProcess(s, Some(sub)));
    } else {
      r := a;
    }
  }

  // ----- the operations -----

  /** replace_all_id, for the nodes: fresh ids for the events, the activities and the gateways, in this order. */
  method ReplaceAllId(data: Pipeline, n: nat) returns (r: Pipeline, n': nat)
    ensures LevelNumbered(r, n) && n' == n + Width(r)
    ensures r.id == data.id && |r.gateways| == |data.gateways| && |r.activities| == |data.activities|
    ensures forall i :: 0 <= i < |r.activities| ==> r.activities[i].kind == data.activities[i].kind
  {
    n' := n + 2;
    var activities: seq<Activity> := [];
    for i := 0 to |data.activities|
      invariant |activities| == i && n' == n + 2 + i
      invariant forall k :: 0 <= k < i ==> activities[k] == Activity(n + 2 + k, data.activities[k].kind)
    {
      activities, n' := activities + [Activity(n', data.activities[i].kind)], n' + 1;
    }
    var gateways: seq<Id> := [];
    for i := 0 to |data.gateways|
      invariant |gateways| == i && n' == n + 2 + |data.activities| + i
      invariant forall k :: 0 <= k < i ==> gateways[k] == n + 2 + |data.activities| + k
    {
      gateways, n' := gateways + [n'], n' + 1;
    }
    r := Pipeline(data.id, n, n + 1, gateways, activities);
  }

  lemma MirrorsIgnoresId(store: Store, data: Pipeline, r: Pipeline, id: Id)
    requires Mirrors(store, data, r)
    ensures Mirrors(store, data, r.(id := id))
  {}

  lemma NumberedIgnoresId(r: Pipeline, n: nat, id: Id)
    ensures Numbered(r.(id := id), n) <==> Numbered(r, n)
    ensures Size(r.(id := id)) == Size(r)
  {}

  /** A level whose first activities are done: what both traversals below have numbered so far. */
  ghost predicate NumberedSoFar(activities: seq<Activity>, n: nat, next: nat, n': nat) {
    && (forall k :: 0 <= k < |activities| ==> activities[k].id == n + 2 + k)
    && SubsNumbered(activities, next) && n' == next + SubsSize(activities)
  }

  lemma NumberedSnoc(activities: seq<Activity>, a: Activity, n: nat, next: nat, from: nat)
    requires NumberedSoFar(activities, n, next, from)
    requires a.id == n + 2 + |activities| && SubNumbered(a, from)
    ensures NumberedSoFar(activities + [a], n, next, from + SubSize(a))
  {}

  lemma NumberedLevel(p: Pipeline, activities: seq<Activity>, n: nat, n': nat)
    requires LevelNumbered(p, n) && |activities| == |p.activities|
    requires NumberedSoFar(activities, n, n + Width(p), n')
    ensures Numbered(p.(activities := activities), n) && n' == n + Size(p.(activities := activities))
  {}

  ghost predicate MirrorsSoFar(store: Store, activities: seq<Activity>, rs: seq<Activity>) {
    |rs| <= |activities| && forall k :: 0 <= k < |rs| ==> MirrorsActivity(store, activities[k], rs[k])
  }

  lemma MirrorsLevel(store: Store, data: Pipeline, r: Pipeline)
    requires |r.gateways| == |data.gateways| && |r.activities| == |data.activities|
    requires MirrorsSoFar(store, data.activities, r.activities)
    ensures Mirrors(store, data, r)
  {}

  /** unfold_subprocess on one activity. */
  method UnfoldActivity(store: Store, a: Activity, n: nat, ghost rank: map<Ref, nat>, ghost b: nat)
    returns (r: Option<Activity>, n': nat)
    requires Ranked(store, rank) && (a.kind.SubProcess? ==> a.kind.ref in rank && rank[a.kind.ref] < b)
    ensures r.Some? ==> MirrorsActivity(store, a, r.value) && r.value.id == a.id
    ensures r.Some? ==> SubNumbered(r.value, n) && n' == n + SubSize(r.value)
    ensures r.None? ==> forall m :: !MirrorsActivity(store, a, m)
    decreases b, 0
  {
    match a.kind
    case Service => return Some(a), n;
    case SubProcess(ref, _) =>
      if !Resolves(store, ref) {
        return None, n;
      }
      var sub, next := Unfold(store, DataOf(store, ref), n, rank, rank[ref]);
      if sub.None? {
        NoMirrorOfSub(store, a);
        return None, next;
      }
      MirrorsIgnoresId(store, DataOf(store, ref), sub.value, a.id);
      NumberedIgnoresId(sub.value, n, a.id);
      return Some(Activity(a.id, SubProcess(ref, Some(sub.value.(id := a.id))))), next;
  }

  lemma NoMirrorOfSub(store: Store, a: Activity)
    requires a.kind.SubProcess? && Resolves(store, a.kind.ref) && !Unfoldable(store, DataOf(store, a.kind.ref))
    ensures forall m :: !MirrorsActivity(store, a, m)
  {}

  method Unfold(store: Store, data: Pipeline, n: nat, ghost rank: map<Ref, nat>, ghost b: nat)
    returns (r: Option<Pipeline>, n': nat)
    requires Ranked(store, rank) && RankedBelow(Refs(data), rank, b)
    ensures r.Some? ==> Mirrors(store, data, r.value) && r.value.id == data.id
    ensures r.Some? ==> Numbered(r.value, n) && n' == n + Size(r.value)
    ensures r.None? ==> !Unfoldable(store, data)
    decreases b, 1
  {
    var renamed, next := ReplaceAllId(data, n);
    var activities: seq<Activity> := [];
    n' := next;
    for i := 0 to |renamed.activities|
      invariant |activities| == i
      invariant MirrorsSoFar(store, data.activities, activities)
      invariant NumberedSoFar(activities, n, next, n')
    {
      if data.activities[i].kind.SubProcess? {
        HasRefsIn(data.activities, i);
      }
      var a, from;
      from := n';
      a, n' := UnfoldActivity(store, renamed.activities[i], from, rank, b);
      if a.None? {
        NoMirrorWithout(store, data, renamed.activities[i], i);
        return None, n';
      }
      SameKindMirrors(store, data.activities[i], renamed.activities[i], a.value);
      NumberedSnoc(activities, a.value, n, next, from);
      activities := activities + [a.value];
    }
    NumberedLevel(renamed, activities, n, n');
    MirrorsLevel(store, data, renamed.(activities := activities));
    r := Some(renamed.(activities := activities));
  }

  lemma SameKindMirrors(store: Store, a: Activity, b: Activity, r: Activity)
    requires a.kind == b.kind && MirrorsActivity(store, b, r)
    ensures MirrorsActivity(store, a, r)
  {}

  lemma NoMirrorWithout(store: Store, data: Pipeline, a: Activity, i: nat)
    requires i < |data.activities| && a.kind == data.activities[i].kind
    requires forall m :: !MirrorsActivity(store, a, m)
    ensures !Unfoldable(store, data)
  {
    forall m ensures !Mirrors(store, data, m) {
      if Mirrors(store, data, m) {
        assert MirrorsActivity(store, data.activities[i], m.activities[i]);
        SameKindMirrors(store, a, data.activities[i], m.activities[i]);
      }
    }
  }

  /** unfold_subprocess: always ends when no reference cycle can be reached; it fails only if some reference
      that can be reached does not resolve, and otherwise leaves no subprocess unexpanded, every id fresh. */
  method UnfoldSubprocess(store: Store, data: Pipeline, n: nat) returns (r: Option<Pipeline>, n': nat)
    requires !Cyclic(VisitedEdges(store, Refs(data), None))
    ensures r.Some? <==> Admissible(store, Refs(data), None)
    ensures r.Some? ==> Mirrors(store, data, r.value) && r.value.id == data.id
    ensures r.Some? ==> Numbered(r.value, n) && n' == n + Size(r.value)
  {
    ghost var rank, b := AcyclicIsRanked(store, Refs(data));
    r, n' := Unfold(store, data, n, rank, b);
    UnfoldableIff(store, data);
    if r.Some? {
      IsUnfoldable(store, data, r.value);
    }
  }

  // ----- renaming an unfolded pipeline -----

  /** Every subprocess, at every depth, holds its pipeline. */
  predicate Complete(p: Pipeline)
    decreases p
  {
    forall i :: 0 <= i < |p.activities| ==> CompleteActivity(p.activities[i])
  }

  predicate CompleteActivity(a: Activity)
    decreases a
  {
    a.kind.SubProcess? ==> a.kind.embedded.Some? && Complete(a.kind.embedded.value)
  }

  /** The same pipeline under a renaming of nodes. */
  predicate SameShape(p: Pipeline, r: Pipeline)
    decreases r
  {
    && |r.gateways| == |p.gateways|
    && |r.activities| == |p.activities|
    && forall i :: 0 <= i < |r.activities| ==> SameActivity(p.activities[i], r.activities[i])
  }

  predicate SameActivity(a: Activity, r: Activity)
    decreases r
  {
    match a.kind
    case Service => r.kind == Service
    case SubProcess(ref, embedded) =>
      && r.kind.SubProcess? && r.kind.ref == ref && embedded.Some? && r.kind.embedded.Some?
      && SameShape(embedded.value, r.kind.embedded.value)
  }

  lemma {:induction false} MirrorsIsComplete(store: Store, data: Pipeline, r: Pipeline)
    requires Mirrors(store, data, r)
    ensures Complete(r)
    decreases r
  {
    forall i | 0 <= i < |r.activities| ensures CompleteActivity(r.activities[i]) {
      assert MirrorsActivity(store, data.activities[i], r.activities[i]);
      var a := r.activities[i];
      if a.kind.SubProcess? {
        MirrorsIsComplete(store, DataOf(store, a.kind.ref), a.kind.embedded.value);
      }
    }
  }

  /** Renaming an unfolding gives an unfolding of the same data. */
  lemma {:induction false} SameShapeMirrors(store: Store, data: Pipeline, p: Pipeline, r: Pipeline)
    requires Mirrors(store, data, p) && SameShape(p, r)
    ensures Mirrors(store, data, r)
    decreases r
  {
    forall i | 0 <= i < |r.activities| ensures MirrorsActivity(store, data.activities[i], r.activities[i]) {
      assert MirrorsActivity(store, data.activities[i], p.activities[i]);
      assert SameActivity(p.activities[i], r.activities[i]);
      var a := r.activities[i];
      if a.kind.SubProcess? {
        SameShapeMirrors(store, DataOf(store, a.kind.ref), p.activities[i].kind.embedded.value, a.kind.embedded.value);
      }
    }
  }

  ghost predicate SameSoFar(activities: seq<Activity>, rs: seq<Activity>) {
    |rs| <= |activities| && forall k :: 0 <= k < |rs| ==> SameActivity(activities[k], rs[k])
  }

  /** PipelineInstance._replace_id: every level of an unfolded pipeline takes fresh ids. */
  method ReplaceId(data: Pipeline, n: nat) returns (r: Pipeline, n': nat)
    requires Complete(data)
    ensures SameShape(data, r) && r.id == data.id
    ensures Numbered(r, n) && n' == n + Size(r)
    decreases data
  {
    var renamed, next := ReplaceAllId(data, n);
    var activities: seq<Activity> := [];
    n' := next;
    for i := 0 to |renamed.activities|
      invariant |activities| == i
      invariant SameSoFar(data.activities, activities)
      invariant NumberedSoFar(activities, n, next, n')
    {
      assert CompleteActivity(data.activities[i]);
      var a, from;
      from := n';
      a, n' := ReplaceSubId(data.activities[i], renamed.activities[i].id, from);
      NumberedSnoc(activities, a, n, next, from);
      activities := activities + [a];
    }
    NumberedLevel(renamed, activities, n, n');
    r := renamed.(activities := activities);
  }

  /** The renamed activity, its embedded pipeline renamed too. */
  method ReplaceSubId(a: Activity, id: Id, n: nat) returns (r: Activity, n': nat)
    requires CompleteActivity(a)
    ensures SameActivity(a, r) && r.id == id
    ensures SubNumbered(r, n) && n' == n + SubSize(r)
    decreases a
  {
    match a.kind
    case Service => return Activity(id, a.kind), n;
    case SubProcess(ref, embedded) =>
      var sub;
      sub, n' := ReplaceId(embedded.value, n);
      NumberedIgnoresId(sub, n, id);
      r := Activity(id, SubProcess(ref, Some(sub.(id := id))));
  }

  /** Shape and numbering leave no choice: two unfoldings with the same numbering and id are the same. */
  lemma {:induction false} NumberingDetermines(store: Store, data: Pipeline, p: Pipeline, q: Pipeline, n: nat)
    requires Mirrors(store, data, p) && Mirrors(store, data, q)
    requires Numbered(p, n) && Numbered(q, n) && p.id == q.id
    ensures p == q
    decreases p
  {
    SubsDetermined(store, data.activities, p.activities, q.activities, n + Width(p));
  }

  lemma {:induction false} SubsDetermined(store: Store, activities: seq<Activity>, p: seq<Activity>, q: seq<Activity>,
                                          n: nat)
    requires |p| == |q| == |activities|
    requires forall i :: 0 <= i < |p| ==> MirrorsActivity(store, activities[i], p[i])
    requires forall i :: 0 <= i < |q| ==> MirrorsActivity(store, activities[i], q[i])
    requires forall i :: 0 <= i < |p| ==> p[i].id == q[i].id
    requires SubsNumbered(p, n) && SubsNumbered(q, n)
    ensures p == q
    decreases p
  {
    if p != [] {
      var k := |p| - 1;
      SubsDetermined(store, activities[..k], p[..k], q[..k], n);
      assert p[..k] == q[..k];
      assert MirrorsActivity(store, activities[k], p[k]) && MirrorsActivity(store, activities[k], q[k]);
      SubDetermined(store, activities[k], p[k], q[k], n + SubsSize(p[..k]));
      assert p == p[..k] + [p[k]] && q == q[..k] + [q[k]];
    }
  }

  lemma {:induction false} SubDetermined(store: Store, a: Activity, p: Activity, q: Activity, n: nat)
    requires MirrorsActivity(store, a, p) && MirrorsActivity(store, a, q)
    requires SubNumbered(p, n) && SubNumbered(q, n) && p.id == q.id
    ensures p == q
    decreases p
  {
    if a.kind.SubProcess? {
      NumberingDetermines(store, DataOf(store, a.kind.ref), p.kind.embedded.value, q.kind.embedded.value, n);
    }
  }

  /** Whatever a run has stored can be unfolded, at any depth, unless an update slipped through. */
  lemma RunUnfolds(md5: Digest, ops: seq<Op>, r: Ref)
    requires Injective(md5) && NoneSlips(md5, ops) && Resolves(Run(md5, ops), r)
    ensures Unfoldable(Run(md5, ops), DataOf(Run(md5, ops), r))
  {
    var store := Run(md5, ops);
    RunKeeps(md5, ops, |ops|);
    assert ops[..|ops|] == ops;
    forall s | s in StoredRefs(store, r) ensures Resolves(store, s) {
      ClosedEdges(store, r, s);
    }
    CreationAcceptedIff(store, DataOf(store, r));
    UnfoldableIff(store, DataOf(store, r));
  }
}
