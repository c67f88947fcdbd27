/** apps/node_man/models.py: which of several policies controls a host. */
module Policies {
  import opened CycleSearch
  import opened Options
  import opened Walks

  // Topology levels.
  const BIZ: Id := 1
  const HOST: Id := 2

  datatype Category = NoCategory | Once | Policy

  /** A node of a subscription's scope; absent keys are None. */
  datatype Scope = Scope(objId: Option<Id>, instId: Option<Id>, hostId: Option<Id>, cloudId: Option<Id>, ip: Option<Id>)

  datatype Subscription = Subscription(id: Id, category: Category, createTime: int,
                                       instanceNodes: bool, hostObjects: bool, nodes: seq<Scope>)

  /** A host, with the instances of each topology level that it belongs to. */
  datatype Host = Host(id: Id, biz: Id, cloud: Id, ip: Id, insts: map<Id, set<Id>>)

  /** A subscription recorded at the level that matched it to a host. */
  datatype Entry = Entry(level: Option<Id>, sub: Subscription)

  datatype Answer =
    | Free(level: Option<Id>, ordered: Option<seq<Entry>>)
    | Suppressed(level: Option<Id>, ranking: seq<Entry>, suppressedBy: Entry)

  // ----- the level at which a subscription matches a host -----

  predicate MatchesBiz(s: Scope, h: Host) {
    s.objId == Some(BIZ) && s.instId == Some(h.biz)
  }

  predicate MatchesHost(s: Scope, h: Host) {
    s.hostId == Some(h.id) || (s.cloudId == Some(h.cloud) && s.ip == Some(h.ip))
  }

  predicate MatchesInst(s: Scope, h: Host, level: Id) {
    s.objId == Some(level) && s.instId.Some? && level in h.insts && s.instId.value in h.insts[level]
  }

  predicate Matches(s: Scope, h: Host, level: Id) {
    if level == HOST then MatchesHost(s, h) else if level == BIZ then MatchesBiz(s, h) else MatchesInst(s, h, level)
  }

  predicate MatchesAny(nodes: seq<Scope>, h: Host, level: Id) {
    exists i :: 0 <= i < |nodes| && Matches(nodes[i], h, level)
  }

  /** biz first, host last, nothing twice. */
  ghost predicate TopoOrder(topo: seq<Id>) {
    Distinct(topo) && |topo| >= 2 && topo[0] == BIZ && topo[|topo| - 1] == HOST
  }

  /** The deepest level of the topology with a matching scope node; none when no node matches. */
  ghost predicate Deepest(topo: seq<Id>, nodes: seq<Scope>, h: Host, level: Option<Id>) {
    match level
    case None => forall i :: 0 <= i < |topo| ==> !MatchesAny(nodes, h, topo[i])
    case Some(l) => exists i :: 0 <= i < |topo| && topo[i] == l && MatchesAny(nodes, h, l)
                               && forall j :: i < j < |topo| ==> !MatchesAny(nodes, h, topo[j])
  }

  method AnyMatch(nodes: seq<Scope>, h: Host, level: Id) returns (found: bool)
    ensures found == MatchesAny(nodes, h, level)
  {
    found := false;
    for i := 0 to |nodes|
      invariant found <==> exists j :: 0 <= j < i && Matches(nodes[j], h, level)
    {
      if Matches(nodes[i], h, level) {
        found := true;
      }
    }
  }

  /** _get_sub_inst_bk_obj_id. */
  method SubInstObjId(sub: Subscription, h: Host, topo: seq<Id>) returns (level: Option<Id>)
    ensures sub.instanceNodes && sub.hostObjects ==> level == Some(HOST)
    ensures !(sub.instanceNodes && sub.hostObjects) ==> level == LevelOf(sub.nodes, h, topo)
    ensures level == Some(HOST) <==> (sub.instanceNodes && sub.hostObjects) || NamesHost(sub.nodes, h)
    ensures level == Some(BIZ) ==> NamesBiz(sub.nodes, h)
    ensures forall l :: level == Some(l) && l != HOST && l != BIZ ==> l in topo && NamesInst(sub.nodes, h, l)
    ensures level == None ==> !NamesBiz(sub.nodes, h)
    ensures level == None ==> forall l :: l in topo && l != HOST && l != BIZ ==> !NamesInst(sub.nodes, h, l)
  {
    MatchesMean(sub.nodes, h);
    LevelMeans(sub.nodes, h, topo);
    if sub.instanceNodes && sub.hostObjects {
      return Some(HOST);
    }
    var atBiz := AnyMatch(sub.nodes, h, BIZ);
    level := if atBiz then Some(BIZ) else None;
    for i := 0 to |topo|
      invariant level == LevelBelow(sub.nodes, h, topo[..i])
    {
      assert topo[..i + 1][..i] == topo[..i];
      if topo[i] != BIZ && topo[i] != HOST {
        var found := AnyMatch(sub.nodes, h, topo[i]);
        if found {
          level := Some(topo[i]);
        }
      }
    }
    assert topo[..|topo|] == topo;
    var atHost := AnyMatch(sub.nodes, h, HOST);
    if atHost {
      level := Some(HOST);
    }
  }

  /** Later levels of the order override earlier ones; business and host come before and after them all. */
  function LevelBelow(nodes: seq<Scope>, h: Host, topo: seq<Id>): Option<Id> {
    if topo == [] then if MatchesAny(nodes, h, BIZ) then Some(BIZ) else None else
    var last := topo[|topo| - 1];
    if last != BIZ && last != HOST && MatchesAny(nodes, h, last) then Some(last)
    else LevelBelow(nodes, h, topo[..|topo| - 1])
  }

  function LevelOf(nodes: seq<Scope>, h: Host, topo: seq<Id>): Option<Id> {
    if MatchesAny(nodes, h, HOST) then Some(HOST) else LevelBelow(nodes, h, topo)
  }

  /** Some node is the business itself. */
  ghost predicate NamesBiz(nodes: seq<Scope>, h: Host) {
    exists s :: s in nodes && s.objId == Some(BIZ) && s.instId == Some(h.biz)
  }

  /** Some node is the host, by its id or by its cloud and address together. */
  ghost predicate NamesHost(nodes: seq<Scope>, h: Host) {
    exists s :: s in nodes && (s.hostId == Some(h.id) || (s.cloudId == Some(h.cloud) && s.ip == Some(h.ip)))
  }

  /** Some node is an instance of the level that the host belongs to. */
  ghost predicate NamesInst(nodes: seq<Scope>, h: Host, l: Id) {
    exists s, i :: s in nodes && s.objId == Some(l) && s.instId == Some(i) && l in h.insts && i in h.insts[l]
  }

  lemma MatchesMean(nodes: seq<Scope>, h: Host)
    ensures MatchesAny(nodes, h, BIZ) <==> NamesBiz(nodes, h)
    ensures MatchesAny(nodes, h, HOST) <==> NamesHost(nodes, h)
    ensures forall l :: l != BIZ && l != HOST ==> (MatchesAny(nodes, h, l) <==> NamesInst(nodes, h, l))
  {
    forall l ensures MatchesAny(nodes, h, l) <==> exists s :: s in nodes && Matches(s, h, l) {
      if s :| s in nodes && Matches(s, h, l) {
        var i :| 0 <= i < |nodes| && nodes[i] == s;
      }
    }
    forall l | l != BIZ && l != HOST ensures MatchesAny(nodes, h, l) <==> NamesInst(nodes, h, l) {
      if s :| s in nodes && Matches(s, h, l) {
        var i := s.instId.value;
        assert s.instId == Some(i);
      }
    }
  }

  lemma {:induction false} LevelMeans(nodes: seq<Scope>, h: Host, topo: seq<Id>)
    ensures LevelBelow(nodes, h, topo) != Some(HOST)
    ensures LevelBelow(nodes, h, topo) == Some(BIZ) ==> MatchesAny(nodes, h, BIZ)
    ensures forall l :: LevelBelow(nodes, h, topo) == Some(l) && l != BIZ ==> l in topo && MatchesAny(nodes, h, l)
    ensures LevelBelow(nodes, h, topo) == None ==> !MatchesAny(nodes, h, BIZ)
    ensures LevelBelow(nodes, h, topo) == None ==>
              forall l :: l in topo && l != BIZ && l != HOST ==> !MatchesAny(nodes, h, l)
  {
    if topo != [] {
      LevelMeans(nodes, h, topo[..|topo| - 1]);
      assert topo == topo[..|topo| - 1] + [topo[|topo| - 1]];
    }
  }

  lemma DeepestAlone(nodes: seq<Scope>, h: Host)
    ensures Deepest([BIZ], nodes, h, LevelBelow(nodes, h, [BIZ]))
  {
    assert LevelBelow(nodes, h, [BIZ]) == LevelBelow(nodes, h, [BIZ][..0]) == LevelBelow(nodes, h, []);
    assert [BIZ][0] == BIZ;
  }

  lemma {:induction false} DeepestBelow(nodes: seq<Scope>, h: Host, topo: seq<Id>, n: nat)
    requires TopoOrder(topo) && 1 <= n < |topo|
    ensures Deepest(topo[..n], nodes, h, LevelBelow(nodes, h, topo[..n]))
  {
    if n == 1 {
      assert topo[..1] == [BIZ];
      DeepestAlone(nodes, h);
    } else {
      assert topo[..n][..n - 1] == topo[..n - 1];
      assert Differ(topo, 0, n - 1) && Differ(topo, n - 1, |topo| - 1);
      DeepestBelow(nodes, h, topo, n - 1);
      var last := topo[..n][n - 1];
      if MatchesAny(nodes, h, last) {
        assert LevelBelow(nodes, h, topo[..n]) == Some(last);
      } else {
        DeepestSnoc(topo[..n - 1], last, nodes, h, LevelBelow(nodes, h, topo[..n - 1]));
        assert topo[..n] == topo[..n - 1] + [last];
      }
    }
  }

  lemma DeepestSnoc(topo: seq<Id>, last: Id, nodes: seq<Scope>, h: Host, level: Option<Id>)
    requires Deepest(topo, nodes, h, level) && !MatchesAny(nodes, h, last)
    ensures Deepest(topo + [last], nodes, h, level)
  {
    if level.Some? {
      var i :| 0 <= i < |topo| && topo[i] == level.value && MatchesAny(nodes, h, level.value)
               && forall j :: i < j < |topo| ==> !MatchesAny(nodes, h, topo[j]);
      assert (topo + [last])[i] == level.value;
    }
  }

  /** For an order with biz first and host last the chosen level is the deepest that matches. */
  lemma LevelIsDeepest(nodes: seq<Scope>, h: Host, topo: seq<Id>)
    requires TopoOrder(topo)
    ensures Deepest(topo, nodes, h, LevelOf(nodes, h, topo))
  {
    var n := |topo| - 1;
    DeepestBelow(nodes, h, topo, n);
    assert topo == topo[..n] + [HOST];
    if MatchesAny(nodes, h, HOST) {
      assert topo[n] == HOST;
    } else {
      DeepestSnoc(topo[..n], HOST, nodes, h, LevelBelow(nodes, h, topo[..n]));
      assert topo[..n + 1][..n] == topo[..n];
      assert LevelBelow(nodes, h, topo) == LevelBelow(nodes, h, topo[..n]);
    }
  }

  // ----- the order of entries -----

  function Priority(topo: seq<Id>, e: Entry): int {
    if e.level.Some? && e.level.value in topo then IndexOf(topo, e.level.value) else -1
  }

  /** The comparator's negative answer: a lower level, or as low and older. */
  predicate Less(topo: seq<Id>, a: Entry, b: Entry) {
    || Priority(topo, a) < Priority(topo, b)
    || (Priority(topo, a) == Priority(topo, b) && a.sub.createTime < b.sub.createTime)
  }

  /** The first place of a level in the order. */
  predicate IsPlace(topo: seq<Id>, level: Option<Id>, i: int) {
    0 <= i < |topo| && level == Some(topo[i]) && topo[i] !in topo[..i]
  }

  /** The level x is in the order and comes later than y; a level that is not in the order comes before all. */
  ghost predicate Deeper(topo: seq<Id>, x: Option<Id>, y: Option<Id>) {
    exists i :: IsPlace(topo, x, i) && forall j :: IsPlace(topo, y, j) ==> j < i
  }

  /** Matched at a deeper level; or neither is deeper, and it is newer. */
  ghost predicate Beats(topo: seq<Id>, a: Entry, b: Entry) {
    || Deeper(topo, a.level, b.level)
    || (!Deeper(topo, b.level, a.level) && a.sub.createTime > b.sub.createTime)
  }

  lemma PriorityIsPlace(topo: seq<Id>, e: Entry, i: int)
    ensures IsPlace(topo, e.level, i) <==> i >= 0 && Priority(topo, e) == i
  {
    forall j, k | 0 <= j < k <= |topo| ensures topo[j] in topo[..k] {
      assert topo[..k][j] == topo[j];
    }
    if e.level.Some? && e.level.value in topo {
      IndexOfFirst(topo, e.level.value);
    }
  }

  lemma DeeperIff(topo: seq<Id>, a: Entry, b: Entry)
    ensures Deeper(topo, a.level, b.level) <==> Priority(topo, b) < Priority(topo, a)
  {
    forall i ensures IsPlace(topo, a.level, i) <==> i >= 0 && Priority(topo, a) == i {
      PriorityIsPlace(topo, a, i);
    }
    forall i ensures IsPlace(topo, b.level, i) <==> i >= 0 && Priority(topo, b) == i {
      PriorityIsPlace(topo, b, i);
    }
    if Priority(topo, b) < Priority(topo, a) {
      assert IsPlace(topo, a.level, Priority(topo, a));
    }
    if Deeper(topo, a.level, b.level) && Priority(topo, b) >= 0 {
      assert IsPlace(topo, b.level, Priority(topo, b));
    }
  }

  /** What the comparator compares. */
  lemma LessIffBeaten(topo: seq<Id>, a: Entry, b: Entry)
    ensures Less(topo, a, b) <==> Beats(topo, b, a)
  {
    DeeperIff(topo, a, b);
    DeeperIff(topo, b, a);
  }

  function Compare(topo: seq<Id>, a: Entry, b: Entry): int {
    if Less(topo, a, b) then -1 else 1
  }

  /** Neither comes before the other. */
  predicate Ties(topo: seq<Id>, a: Entry, b: Entry) {
    Priority(topo, a) == Priority(topo, b) && a.sub.createTime == b.sub.createTime
  }

  function TiesOf(topo: seq<Id>, s: seq<Entry>, e: Entry): seq<Entry> {
    if s == [] then [] else
    TiesOf(topo, s[..|s| - 1], e) + if Ties(topo, s[|s| - 1], e) then [s[|s| - 1]] else []
  }

  ghost predicate Ordered(topo: seq<Id>, s: seq<Entry>) {
    forall i, j :: 0 <= i < j < |s| ==> !Less(topo, s[j], s[i])
  }

  /** A stable sort: a permutation in ascending order that keeps the order of ties. */
  ghost predicate IsStableSort(topo: seq<Id>, s: seq<Entry>, r: seq<Entry>) {
    multiset(r) == multiset(s) && Ordered(topo, r) && forall e :: TiesOf(topo, r, e) == TiesOf(topo, s, e)
  }

  lemma {:induction false} TiesConcat(topo: seq<Id>, s: seq<Entry>, r: seq<Entry>, e: Entry)
    ensures TiesOf(topo, s + r, e) == TiesOf(topo, s, e) + TiesOf(topo, r, e)
  {
    if r == [] {
      assert s + r == s;
    } else {
      assert (s + r)[..|s + r| - 1] == s + r[..|r| - 1];
      TiesConcat(topo, s, r[..|r| - 1], e);
    }
  }

  lemma {:induction false} NoTies(topo: seq<Id>, s: seq<Entry>, e: Entry)
    requires forall i :: 0 <= i < |s| ==> !Ties(topo, s[i], e)
    ensures TiesOf(topo, s, e) == []
  {
    if s != [] {
      NoTies(topo, s[..|s| - 1], e);
    }
  }

  /** Putting an entry in before entries that it is less than changes no tie. */
  lemma InsertKeepsTies(topo: seq<Id>, before: seq<Entry>, after: seq<Entry>, x: Entry, e: Entry)
    requires forall i :: 0 <= i < |after| ==> Less(topo, x, after[i])
    ensures TiesOf(topo, before + [x] + after, e) == TiesOf(topo, before + after, e) + TiesOf(topo, [x], e)
  {
    TiesConcat(topo, before + [x], after, e);
    TiesConcat(topo, before, [x], e);
    TiesConcat(topo, before, after, e);
    if Ties(topo, x, e) {
      NoTies(topo, after, e);
    } else {
      NoTies(topo, [x], e);
    }
    LastMoves(TiesOf(topo, before, e), TiesOf(topo, [x], e), TiesOf(topo, after, e));
  }

  lemma LastMoves(a: seq<Entry>, b: seq<Entry>, c: seq<Entry>)
    requires b == [] || c == []
    ensures a + b + c == a + c + b
  {}

  lemma InsertSorts(topo: seq<Id>, s: seq<Entry>, before: seq<Entry>, after: seq<Entry>, x: Entry)
    requires IsStableSort(topo, s, before + after)
    requires forall i :: 0 <= i < |after| ==> Less(topo, x, after[i])
    requires before == [] || !Less(topo, x, before[|before| - 1])
    ensures IsStableSort(topo, s + [x], before + [x] + after)
  {
    var r := before + after;
    forall e ensures TiesOf(topo, before + [x] + after, e) == TiesOf(topo, s + [x], e) {
      InsertKeepsTies(topo, before, after, x, e);
      TiesConcat(topo, s, [x], e);
    }
    assert forall i :: 0 <= i < |before| ==> before[i] == r[i];
    assert forall i :: 0 <= i < |after| ==> after[i] == r[|before| + i];
    InsertOrders(topo, before, after, x);
    assert multiset(before + [x] + after) == multiset(r) + multiset{x};
  }

  lemma InsertOrders(topo: seq<Id>, before: seq<Entry>, after: seq<Entry>, x: Entry)
    requires Ordered(topo, before + after)
    requires forall i :: 0 <= i < |after| ==> Less(topo, x, after[i])
    requires before == [] || !Less(topo, x, before[|before| - 1])
    ensures Ordered(topo, before + [x] + after)
  {
    var r, r' := before + after, before + [x] + after;
    var n := |before|;
    forall i, j | 0 <= i < j < |r'| ensures !Less(topo, r'[j], r'[i]) {
      if i != n && j != n {
        assert !Less(topo, r[if j < n then j else j - 1], r[if i < n then i else i - 1]);
      } else if j == n && i < n - 1 {
        assert !Less(topo, r[n - 1], r[i]);
      }
    }
  }

  /** sorted with the comparator. */
  method Sort(topo: seq<Id>, s: seq<Entry>) returns (r: seq<Entry>)
    ensures IsStableSort(topo, s, r)
  {
    r := [];
    for n := 0 to |s|
      invariant IsStableSort(topo, s[..n], r)
    {
      var x := s[n];
      var k := |r|;
      while k > 0 && Compare(topo, x, r[k - 1]) < 0
        invariant 0 <= k <= |r|
        invariant forall i :: k <= i < |r| ==> Less(topo, x, r[i])
      {
        k := k - 1;
      }
      assert r == r[..k] + r[k..];
      InsertSorts(topo, s[..n], r[..k], r[k..], x);
      assert s[..n + 1] == s[..n] + [x];
      r := r[..k] + [x] + r[k..];
    }
    assert s[..|s|] == s;
  }

  // ----- who wins -----

  ghost predicate Maximal(topo: seq<Id>, s: seq<Entry>, e: Entry) {
    forall i :: 0 <= i < |s| ==> !Less(topo, e, s[i])
  }

  /** Nothing in the list beats it. */
  ghost predicate Unbeaten(topo: seq<Id>, s: seq<Entry>, e: Entry) {
    forall x :: x in s ==> !Beats(topo, x, e)
  }

  lemma MaximalIffUnbeaten(topo: seq<Id>, s: seq<Entry>, e: Entry)
    ensures Maximal(topo, s, e) <==> Unbeaten(topo, s, e)
  {
    forall x ensures Less(topo, e, x) <==> Beats(topo, x, e) {
      LessIffBeaten(topo, e, x);
    }
    if Maximal(topo, s, e) {
      forall x | x in s ensures !Less(topo, e, x) {
        var i :| 0 <= i < |s| && s[i] == x;
      }
    }
  }

  lemma {:induction false} LastTie(topo: seq<Id>, s: seq<Entry>, e: Entry)
    requires s != [] && Ties(topo, s[|s| - 1], e)
    ensures TiesOf(topo, s, e) != [] && TiesOf(topo, s, e)[|TiesOf(topo, s, e)| - 1] == s[|s| - 1]
  {}

  lemma SortedLast(topo: seq<Id>, s: seq<Entry>, r: seq<Entry>)
    requires IsStableSort(topo, s, r) && s != []
    ensures r != [] && r[|r| - 1] in s && Maximal(topo, s, r[|r| - 1])
  {
    assert |r| == |multiset(r)| == |s|;
    var last := r[|r| - 1];
    assert last in multiset(s);
    forall i | 0 <= i < |s| ensures !Less(topo, last, s[i]) {
      assert s[i] in multiset(r);
      var j :| 0 <= j < |r| && r[j] == s[i];
    }
  }

  /** The last entry of the list comes out last exactly when it is maximal: it wins ties. */
  lemma CurrentIsLastIff(topo: seq<Id>, others: seq<Entry>, current: Entry, r: seq<Entry>)
    requires IsStableSort(topo, others + [current], r) && current !in others
    ensures r != [] && (r[|r| - 1] == current <==> Maximal(topo, others, current))
  {
    var s := others + [current];
    SortedLast(topo, s, r);
    var last := r[|r| - 1];
    assert s[|others|] == current;
    if last == current {
      forall i | 0 <= i < |others| ensures !Less(topo, current, others[i]) {
        assert s[i] == others[i];
      }
    }
    if Maximal(topo, others, current) {
      LastMaximal(topo, others, current, last);
      LastTie(topo, s, current);
      LastTie(topo, r, current);
    }
  }

  lemma LastMaximal(topo: seq<Id>, others: seq<Entry>, current: Entry, last: Entry)
    requires Maximal(topo, others, current) && Maximal(topo, others + [current], last) && last in others + [current]
    ensures Ties(topo, last, current)
  {
    var s := others + [current];
    assert s[|others|] == current;
    var i :| 0 <= i < |s| && s[i] == last;
    if i < |others| {
      assert others[i] == last;
    }
  }

  // ----- check_is_suppressed -----

  /** The other subscriptions recorded on the host, in their order. */
  function Others(entries: seq<Entry>, id: Id): seq<Entry> {
    if entries == [] then [] else
    Others(entries[..|entries| - 1], id)
    + if entries[|entries| - 1].sub.id == id then [] else [entries[|entries| - 1]]
  }

  lemma {:induction false} OthersHas(entries: seq<Entry>, id: Id, e: Entry)
    ensures e in Others(entries, id) <==> e in entries && e.sub.id != id
  {
    if entries != [] {
      OthersHas(entries[..|entries| - 1], id, e);
      assert entries == entries[..|entries| - 1] + [entries[|entries| - 1]];
    }
  }

  /** Taken in order: a filter of the list. */
  lemma {:induction false} OthersConcat(s: seq<Entry>, r: seq<Entry>, id: Id)
    ensures Others(s + r, id) == Others(s, id) + Others(r, id)
  {
    if r == [] {
      assert s + r == s;
    } else {
      assert (s + r)[..|s + r| - 1] == s + r[..|r| - 1];
      OthersConcat(s, r[..|r| - 1], id);
    }
  }

  method FetchOthers(entries: seq<Entry>, id: Id) returns (others: seq<Entry>)
    ensures others == Others(entries, id)
  {
    others := [];
    for i := 0 to |entries|
      invariant others == Others(entries[..i], id)
    {
      assert entries[..i + 1][..i] == entries[..i];
      if entries[i].sub.id != id {
        others := others + [entries[i]];
      }
    }
    assert entries[..|entries|] == entries;
  }

  /** The level at which the subscription is matched to the host. */
  function OwnLevel(sub: Subscription, h: Host, topo: seq<Id>): Option<Id> {
    if sub.instanceNodes && sub.hostObjects then Some(HOST) else LevelOf(sub.nodes, h, topo)
  }

  /** Not considered at all: what has no category, and a one-off doing something else than installing a plugin.
      Suppressed exactly: a one-off when the host has other policies; a policy when another one beats it. */
  method CheckIsSuppressed(sub: Subscription, installs: bool, h: Host, topo: seq<Id>, entries: seq<Entry>)
    returns (a: Answer)
    ensures sub.category.NoCategory? || (sub.category.Once? && !installs) ==> a == Free(None, None)
    ensures sub.category.Policy? || (sub.category.Once? && installs) ==> a.level == OwnLevel(sub, h, topo)
    ensures sub.category.Once? && installs ==>
              && (a.Free? <==> Others(entries, sub.id) == [])
              && (a.Suppressed? ==> IsStableSort(topo, Others(entries, sub.id), a.ranking))
              && (a.Free? ==> a.ordered == None)
    ensures sub.category.Policy? ==>
              var all := Others(entries, sub.id) + [Entry(a.level, sub)];
              && (a.Free? <==> Maximal(topo, Others(entries, sub.id), Entry(a.level, sub)))
              && (a.Free? ==> a.ordered.Some? && IsStableSort(topo, all, a.ordered.value))
              && (a.Suppressed? ==> IsStableSort(topo, all, a.ranking))
    ensures a.Suppressed? ==> a.ranking != [] && a.suppressedBy == a.ranking[|a.ranking| - 1]
    ensures sub.category.Policy? ==>
              (a.Free? <==> forall e :: e in entries && e.sub.id != sub.id ==> !Beats(topo, e, Entry(a.level, sub)))
    ensures a.Suppressed? ==> a.suppressedBy in entries && a.suppressedBy.sub.id != sub.id
    ensures a.Suppressed? ==> forall e :: e in entries && e.sub.id != sub.id ==> !Beats(topo, e, a.suppressedBy)
    ensures a.Suppressed? && sub.category.Policy? ==> Beats(topo, a.suppressedBy, Entry(a.level, sub))
  {
    forall e ensures e in Others(entries, sub.id) <==> e in entries && e.sub.id != sub.id {
      OthersHas(entries, sub.id, e);
    }
    if sub.category.NoCategory? {
      return Free(None, None);
    }
    if sub.category.Once? && !installs {
      return Free(None, None);
    }
    var level := SubInstObjId(sub, h, topo);
    var others := FetchOthers(entries, sub.id);
    if sub.category.Once? {
      a := CheckOnce(level, topo, others);
    } else {
      a := CheckPolicy(sub, level, topo, entries, others);
    }
  }

  /** A one-off gives way to any policy on the host. */
  method CheckOnce(level: Option<Id>, topo: seq<Id>, others: seq<Entry>) returns (a: Answer)
    ensures a.level == level && (a.Free? <==> others == [])
    ensures a.Free? ==> a.ordered == None
    ensures a.Suppressed? ==> IsStableSort(topo, others, a.ranking)
    ensures a.Suppressed? ==> a.ranking != [] && a.suppressedBy == a.ranking[|a.ranking| - 1]
    ensures a.Suppressed? ==> a.suppressedBy in others && Unbeaten(topo, others, a.suppressedBy)
  {
    if others == [] {
      return Free(level, None);
    }
    var sorted := Sort(topo, others);
    SortedLast(topo, others, sorted);
    MaximalIffUnbeaten(topo, others, sorted[|sorted| - 1]);
    return Suppressed(level, sorted, sorted[|sorted| - 1]);
  }

  /** A policy gives way to one that beats it. */
  method CheckPolicy(sub: Subscription, level: Option<Id>, topo: seq<Id>, ghost entries: seq<Entry>, others: seq<Entry>)
    returns (a: Answer)
    requires others == Others(entries, sub.id) && Entry(level, sub) !in others
    ensures a.level == level && (a.Free? <==> Maximal(topo, others, Entry(level, sub)))
    ensures a.Free? ==> a.ordered.Some? && IsStableSort(topo, others + [Entry(level, sub)], a.ordered.value)
    ensures a.Suppressed? ==> IsStableSort(topo, others + [Entry(level, sub)], a.ranking)
    ensures a.Suppressed? ==> a.ranking != [] && a.suppressedBy == a.ranking[|a.ranking| - 1]
    ensures a.Free? <==> Unbeaten(topo, others, Entry(level, sub))
    ensures a.Suppressed? ==> a.suppressedBy in others && Unbeaten(topo, others, a.suppressedBy)
    ensures a.Suppressed? ==> Beats(topo, a.suppressedBy, Entry(level, sub))
  {
    var current := Entry(level, sub);
    var ordered := Sort(topo, others + [current]);
    LastBeats(topo, others, current, ordered);
    LastIsCurrent(topo, entries, current, ordered);
    var highest := ordered[|ordered| - 1];
    if highest.sub.id != sub.id {
      return Suppressed(level, ordered, highest);
    }
    return Free(level, Some(ordered));
  }

  /** Whatever comes out last instead of the current entry beats it, and nothing beats that. */
  lemma LastBeats(topo: seq<Id>, others: seq<Entry>, current: Entry, ordered: seq<Entry>)
    requires IsStableSort(topo, others + [current], ordered) && current !in others
    ensures ordered != []
    ensures ordered[|ordered| - 1] == current <==> Maximal(topo, others, current)
    ensures Maximal(topo, others, current) <==> Unbeaten(topo, others, current)
    ensures var last := ordered[|ordered| - 1];
            last != current ==> last in others && Unbeaten(topo, others, last) && Beats(topo, last, current)
  {
    var s := others + [current];
    SortedLast(topo, s, ordered);
    CurrentIsLastIff(topo, others, current, ordered);
    MaximalIffUnbeaten(topo, others, current);
    var last := ordered[|ordered| - 1];
    if last != current {
      BeatsCurrent(topo, others, current, last);
    }
  }

  lemma BeatsCurrent(topo: seq<Id>, others: seq<Entry>, current: Entry, last: Entry)
    requires Maximal(topo, others + [current], last) && !Maximal(topo, others, current) && last in others + [current]
    ensures last != current ==> last in others && Unbeaten(topo, others, last) && Beats(topo, last, current)
  {
    var s := others + [current];
    forall i | 0 <= i < |others| ensures !Less(topo, last, others[i]) {
      assert s[i] == others[i];
    }
    MaximalIffUnbeaten(topo, others, last);
    LessIffBeaten(topo, current, last);
  }

  /** Ids tell the current entry from the others. */
  lemma LastIsCurrent(topo: seq<Id>, entries: seq<Entry>, current: Entry, ordered: seq<Entry>)
    requires IsStableSort(topo, Others(entries, current.sub.id) + [current], ordered) && ordered != []
    ensures ordered[|ordered| - 1].sub.id == current.sub.id <==> ordered[|ordered| - 1] == current
  {
    var all := Others(entries, current.sub.id) + [current];
    SortedLast(topo, all, ordered);
    OthersHas(entries, current.sub.id, ordered[|ordered| - 1]);
  }

  // ----- a host's policies, recorded with their own levels -----

  ghost predicate Recorded(topo: seq<Id>, h: Host, entries: seq<Entry>) {
    && (forall i :: 0 <= i < |entries| ==>
          entries[i].sub.category.Policy? && entries[i].level == OwnLevel(entries[i].sub, h, topo))
    && (forall i, j :: 0 <= i < j < |entries| ==> entries[i].sub.id != entries[j].sub.id)
  }

  /** What CheckIsSuppressed answers Free for, when asked for a recorded policy. */
  ghost predicate Unsuppressed(topo: seq<Id>, entries: seq<Entry>, e: Entry) {
    Maximal(topo, Others(entries, e.sub.id), e)
  }

  ghost predicate TimesDiffer(entries: seq<Entry>) {
    forall i, j :: 0 <= i < j < |entries| ==> entries[i].sub.createTime != entries[j].sub.createTime
  }

  /** Unsuppressed are exactly the policies that are maximal in (level, creation time). */
  lemma UnsuppressedIffMaximal(topo: seq<Id>, h: Host, entries: seq<Entry>, e: Entry)
    requires Recorded(topo, h, entries) && e in entries
    ensures Unsuppressed(topo, entries, e) <==> Maximal(topo, entries, e)
    ensures Unsuppressed(topo, entries, e) <==> forall x :: x in entries ==> !Beats(topo, x, e)
  {
    MaximalIffUnbeaten(topo, entries, e);
    var others := Others(entries, e.sub.id);
    forall x | x in entries && x != e ensures x in others {
      DistinctIds(topo, h, entries, x, e);
      OthersHas(entries, e.sub.id, x);
    }
    forall x | x in others ensures x in entries {
      OthersHas(entries, e.sub.id, x);
    }
    if Unsuppressed(topo, entries, e) {
      forall i | 0 <= i < |entries| ensures !Less(topo, e, entries[i]) {
        if entries[i] != e {
          assert entries[i] in others;
        }
      }
    }
    if Maximal(topo, entries, e) {
      forall i | 0 <= i < |others| ensures !Less(topo, e, others[i]) {
        assert others[i] in entries;
      }
    }
  }

  lemma DistinctIds(topo: seq<Id>, h: Host, entries: seq<Entry>, x: Entry, y: Entry)
    requires Recorded(topo, h, entries) && x in entries && y in entries && x != y
    ensures x.sub.id != y.sub.id
  {}

  lemma {:induction false} SomeMaximal(topo: seq<Id>, entries: seq<Entry>) returns (e: Entry)
    requires entries != []
    ensures e in entries && Maximal(topo, entries, e)
  {
    if |entries| == 1 {
      e := entries[0];
    } else {
      var last := entries[|entries| - 1];
      var best := SomeMaximal(topo, entries[..|entries| - 1]);
      e := if Less(topo, best, last) then last else best;
      forall i | 0 <= i < |entries| ensures !Less(topo, e, entries[i]) {
        if i < |entries| - 1 {
          assert entries[i] == entries[..|entries| - 1][i];
        }
      }
    }
  }

  /** Mutual exclusion: when creation times differ, exactly one policy controls the host. */
  lemma ExactlyOneUnsuppressed(topo: seq<Id>, h: Host, entries: seq<Entry>) returns (winner: Entry)
    requires Recorded(topo, h, entries) && TimesDiffer(entries) && entries != []
    ensures winner in entries
    ensures forall e :: e in entries ==> (Unsuppressed(topo, entries, e) <==> e == winner)
    ensures forall e :: e in entries && e != winner ==> Beats(topo, winner, e)
  {
    winner := SomeMaximal(topo, entries);
    forall e | e in entries && e != winner ensures Beats(topo, winner, e) {
      var i :| 0 <= i < |entries| && entries[i] == e;
      LessIffBeaten(topo, e, winner);
      DifferentTimes(entries, winner, e);
    }
    forall e | e in entries ensures Unsuppressed(topo, entries, e) <==> e == winner {
      UnsuppressedIffMaximal(topo, h, entries, e);
      if Maximal(topo, entries, e) {
        OneMaximal(topo, entries, e, winner);
      }
    }
  }

  lemma DifferentTimes(entries: seq<Entry>, x: Entry, y: Entry)
    requires TimesDiffer(entries) && x in entries && y in entries && x != y
    ensures x.sub.createTime != y.sub.createTime
  {
    var i :| 0 <= i < |entries| && entries[i] == x;
    var j :| 0 <= j < |entries| && entries[j] == y;
    assert entries[if i < j then i else j].sub.createTime != entries[if i < j then j else i].sub.createTime;
  }

  lemma OneMaximal(topo: seq<Id>, entries: seq<Entry>, e: Entry, f: Entry)
    requires TimesDiffer(entries) && e in entries && f in entries
    requires Maximal(topo, entries, e) && Maximal(topo, entries, f)
    ensures e == f
  {}

  /** Whoever is suppressed is told a policy that is recorded on the host and maximal there. */
  lemma SuppressedByMaximal(topo: seq<Id>, h: Host, entries: seq<Entry>, e: Entry, ranking: seq<Entry>)
    requires Recorded(topo, h, entries) && e in entries && !Unsuppressed(topo, entries, e)
    requires IsStableSort(topo, Others(entries, e.sub.id) + [e], ranking)
    ensures ranking != [] && ranking[|ranking| - 1] in entries && Maximal(topo, entries, ranking[|ranking| - 1])
    ensures forall x :: x in entries ==> !Beats(topo, x, ranking[|ranking| - 1])
  {
    var all := Others(entries, e.sub.id) + [e];
    SortedLast(topo, all, ranking);
    var top := ranking[|ranking| - 1];
    OthersHas(entries, e.sub.id, top);
    forall i | 0 <= i < |entries| ensures !Less(topo, top, entries[i]) {
      AllHas(topo, h, entries, e, entries[i]);
      var j :| 0 <= j < |all| && all[j] == entries[i];
    }
    MaximalIffUnbeaten(topo, entries, top);
  }

  lemma AllHas(topo: seq<Id>, h: Host, entries: seq<Entry>, e: Entry, x: Entry)
    requires Recorded(topo, h, entries) && e in entries && x in entries
    ensures x in Others(entries, e.sub.id) + [e]
  {
    if x != e {
      DistinctIds(topo, h, entries, x, e);
      OthersHas(entries, e.sub.id, x);
    } else {
      assert (Others(entries, e.sub.id) + [e])[|Others(entries, e.sub.id)|] == e;
    }
  }

  /** When the winner is removed, the next entry of its ordered list is maximal among the rest. */
  lemma NextIsMaximal(topo: seq<Id>, entries: seq<Entry>, winner: Entry, ordered: seq<Entry>)
    requires IsStableSort(topo, Others(entries, winner.sub.id) + [winner], ordered)
    requires |ordered| >= 2 && ordered[|ordered| - 1] == winner
    ensures ordered[|ordered| - 2] in Others(entries, winner.sub.id)
    ensures Maximal(topo, Others(entries, winner.sub.id), ordered[|ordered| - 2])
  {
    var others, n := Others(entries, winner.sub.id), |ordered| - 1;
    DropLast(ordered, others, winner);
    assert ordered[..n][n - 1] in multiset(others);
    forall i | 0 <= i < |others| ensures !Less(topo, ordered[n - 1], others[i]) {
      SameMembers(others, ordered[..n], others[i]);
      var j :| 0 <= j < n && ordered[..n][j] == others[i];
      assert ordered[j] == others[i];
    }
  }

  lemma DropLast(ordered: seq<Entry>, others: seq<Entry>, last: Entry)
    requires ordered != [] && ordered[|ordered| - 1] == last && multiset(ordered) == multiset(others + [last])
    ensures multiset(ordered[..|ordered| - 1]) == multiset(others)
  {
    assert ordered == ordered[..|ordered| - 1] + [last];
    assert multiset(ordered[..|ordered| - 1]) == multiset(ordered) - multiset{last};
    assert multiset(others) == multiset(others + [last]) - multiset{last};
  }

  lemma SameMembers(s: seq<Entry>, r: seq<Entry>, x: Entry)
    requires multiset(r) == multiset(s) && x in s
    ensures x in r
  {
    assert x in multiset(r);
  }

  lemma {:induction false} OthersAre(entries: seq<Entry>, id: Id)
    requires forall i, j :: 0 <= i < j < |entries| ==> entries[i].sub.id != entries[j].sub.id
    requires forall i, j :: 0 <= i < j < |entries| ==> entries[i].sub.createTime != entries[j].sub.createTime
    ensures var others := Others(entries, id);
            forall i, j :: 0 <= i < j < |others| ==>
              others[i].sub.id != others[j].sub.id && others[i].sub.createTime != others[j].sub.createTime
  {
    if entries != [] {
      var front := entries[..|entries| - 1];
      OthersAre(front, id);
      var others := Others(front, id);
      forall i | 0 <= i < |others|
        ensures others[i].sub.id != entries[|front|].sub.id
                && others[i].sub.createTime != entries[|front|].sub.createTime
      {
        OthersHas(front, id, others[i]);
        var k :| 0 <= k < |front| && front[k] == others[i];
        assert entries[k] == others[i];
      }
    }
  }

  lemma RestIsRecorded(topo: seq<Id>, h: Host, entries: seq<Entry>, id: Id)
    requires Recorded(topo, h, entries) && TimesDiffer(entries)
    ensures Recorded(topo, h, Others(entries, id)) && TimesDiffer(Others(entries, id))
  {
    OthersAre(entries, id);
    var others := Others(entries, id);
    forall i | 0 <= i < |others|
      ensures others[i].sub.category.Policy? && others[i].level == OwnLevel(others[i].sub, h, topo)
    {
      OthersHas(entries, id, others[i]);
    }
  }

  /** Handover: without the winner, the next entry of its ordered list alone is unsuppressed. */
  lemma NextTakesOver(topo: seq<Id>, h: Host, entries: seq<Entry>, winner: Entry, ordered: seq<Entry>, e: Entry)
    requires Recorded(topo, h, entries) && TimesDiffer(entries)
    requires IsStableSort(topo, Others(entries, winner.sub.id) + [winner], ordered)
    requires |ordered| >= 2 && ordered[|ordered| - 1] == winner && e in Others(entries, winner.sub.id)
    ensures Unsuppressed(topo, Others(entries, winner.sub.id), e) <==> e == ordered[|ordered| - 2]
    ensures (forall x :: x in entries && x.sub.id != winner.sub.id ==> !Beats(topo, x, e))
       <==> e == ordered[|ordered| - 2]
  {
    var rest := Others(entries, winner.sub.id);
    forall x ensures x in rest <==> x in entries && x.sub.id != winner.sub.id {
      OthersHas(entries, winner.sub.id, x);
    }
    RestIsRecorded(topo, h, entries, winner.sub.id);
    NextIsMaximal(topo, entries, winner, ordered);
    UnsuppressedIffMaximal(topo, h, rest, e);
    if Maximal(topo, rest, e) {
      OneMaximal(topo, rest, e, ordered[|ordered| - 2]);
    }
  }
}
