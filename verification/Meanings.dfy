/** pipeline/component_framework/constant.py: the recursive meaning of the constants of a pool. */
module Meanings {
  import opened Expressions
  import opened Options
  import opened Substitutions
  import opened Walks

  /** The pool's references among its own constants. */
  function RefEdges(pool: Names): set<(Id, Id)> {
    set k, n | k in pool && n in References(pool[k]) && n in pool :: (k, n)
  }

  /** The meaning of the constants: each value is its raw value with the meanings put in. */
  ghost predicate IsMeaning(render: Renderer, raw: Names, m: Names) {
    m.Keys == raw.Keys && forall k :: k in raw ==> m[k] == Subst(render, raw[k], m)
  }

  // ----- an acyclic pool has one meaning -----

  lemma PoolRank(raw: Names) returns (rank: map<Id, nat>)
    requires !Cyclic(RefEdges(raw))
    ensures rank.Keys == raw.Keys && Ranks(RefEdges(raw), rank)
  {
    rank := AcyclicHasRank(RefEdges(raw), raw.Keys);
  }

  lemma RankFalls(raw: Names, rank: map<Id, nat>, k: Id, n: Id)
    requires rank.Keys == raw.Keys && Ranks(RefEdges(raw), rank) && k in raw && n in raw && n in References(raw[k])
    ensures rank[n] < rank[k]
  {
    assert (k, n) in RefEdges(raw);
  }

  ghost function MeaningOf(render: Renderer, raw: Names, rank: map<Id, nat>, k: Id): Value
    requires rank.Keys == raw.Keys && Ranks(RefEdges(raw), rank) && k in raw
    decreases rank[k], 1
  {
    Subst(render, raw[k], MeaningsNamed(render, raw, rank, k))
  }

  /** The meanings of the constants that constant k names. */
  ghost function MeaningsNamed(render: Renderer, raw: Names, rank: map<Id, nat>, k: Id): Names
    requires rank.Keys == raw.Keys && Ranks(RefEdges(raw), rank) && k in raw
    decreases rank[k], 0
  {
    map n | n in raw && n in References(raw[k]) :: (RankFalls(raw, rank, k, n); MeaningOf(render, raw, rank, n))
  }

  lemma MeaningExists(render: Renderer, raw: Names) returns (m: Names)
    requires !Cyclic(RefEdges(raw))
    ensures IsMeaning(render, raw, m)
  {
    var rank := PoolRank(raw);
    m := map k | k in raw :: MeaningOf(render, raw, rank, k);
    forall k | k in raw ensures m[k] == Subst(render, raw[k], m) {
      PartSuffices(render, raw[k], MeaningsNamed(render, raw, rank, k), m);
    }
  }

  /** Substituting needs the values of the names that occur only. */
  lemma PartSuffices(render: Renderer, v: Value, part: Names, m: Names)
    requires forall n :: n in References(v) ==> Lookup(part, n) == Lookup(m, n)
    ensures Subst(render, v, part) == Subst(render, v, m)
  {
    forall t | t in Templates(v) ensures Agrees(render, part, render, m, t) {
      forall n | n in NamesOf(t) ensures Lookup(part, n) == Lookup(m, n) {
        HasReference(v, t, n);
      }
      SameAgrees(render, t, part, m);
    }
    SubstAgrees(render, part, render, m, v);
  }

  lemma {:induction false} MeaningAt(render: Renderer, raw: Names, m: Names, m': Names, rank: map<Id, nat>, k: Id)
    requires IsMeaning(render, raw, m) && IsMeaning(render, raw, m')
    requires rank.Keys == raw.Keys && Ranks(RefEdges(raw), rank) && k in raw
    ensures m[k] == m'[k]
    decreases rank[k]
  {
    forall n | n in References(raw[k]) ensures Lookup(m, n) == Lookup(m', n) {
      if n in raw {
        RankFalls(raw, rank, k, n);
        MeaningAt(render, raw, m, m', rank, n);
      }
    }
    PartSuffices(render, raw[k], m, m');
  }

  lemma MeaningIsUnique(render: Renderer, raw: Names, m: Names, m': Names)
    requires !Cyclic(RefEdges(raw)) && IsMeaning(render, raw, m) && IsMeaning(render, raw, m')
    ensures m == m'
  {
    var rank := PoolRank(raw);
    forall k | k in raw ensures m[k] == m'[k] {
      MeaningAt(render, raw, m, m', rank, k);
    }
  }

  // ----- what is left in a meaning -----

  /** A template of a meaning was left unprinted in some raw value. */
  lemma {:induction false} MeaningOrigin(render: Renderer, raw: Names, m: Names, rank: map<Id, nat>, k: Id, t: Token)
    returns (l: Id)
    requires Conservative(render) && IsMeaning(render, raw, m)
    requires rank.Keys == raw.Keys && Ranks(RefEdges(raw), rank) && k in raw && t in Templates(m[k])
    ensures l in raw && t in Unprinted(render, raw[l], m)
    decreases rank[k]
  {
    SubstOrigin(render, raw[k], m, t);
    if Brought(raw[k], m, t) {
      var n :| n in References(raw[k]) && n in m && t in Templates(m[n]);
      RankFalls(raw, rank, k, n);
      l := MeaningOrigin(render, raw, m, rank, n, t);
    } else {
      l := k;
    }
  }

  /** No value of a meaning holds a template that the meaning could change. */
  lemma MeaningIsSettled(render: Renderer, raw: Names, m: Names)
    requires Conservative(render) && !Cyclic(RefEdges(raw)) && IsMeaning(render, raw, m)
    ensures Settled(render, m)
  {
    var rank := PoolRank(raw);
    forall t | t in MapTemplates(m) ensures Rendered(render, t, m) == [t] {
      var k :| k in m && t in Templates(m[k]);
      var l := MeaningOrigin(render, raw, m, rank, k, t);
      UnprintedStay(render, raw[l], m, t);
    }
  }

  /** The constants that a template of a meaning names rank below the constant that holds it. */
  lemma {:induction false} NamesRankBelow(render: Renderer, raw: Names, m: Names, rank: map<Id, nat>, k: Id, t: Token,
                                          n: Id)
    requires Conservative(render) && IsMeaning(render, raw, m)
    requires rank.Keys == raw.Keys && Ranks(RefEdges(raw), rank) && k in raw && t in Templates(m[k])
    requires n in NamesOf(t) && n in raw
    ensures rank[n] < rank[k]
    decreases rank[k]
  {
    SubstOrigin(render, raw[k], m, t);
    if Brought(raw[k], m, t) {
      var l :| l in References(raw[k]) && l in m && t in Templates(m[l]);
      RankFalls(raw, rank, k, l);
      NamesRankBelow(render, raw, m, rank, l, t, n);
    } else {
      UnprintedStay(render, raw[k], m, t);
      HasReference(raw[k], t, n);
      RankFalls(raw, rank, k, n);
    }
  }

  /** So no value of a meaning holds a template that names its own constant. */
  lemma NoOwnTemplate(render: Renderer, raw: Names, m: Names, n: Id, t: Token)
    requires Conservative(render) && !Cyclic(RefEdges(raw)) && IsMeaning(render, raw, m)
    requires n in NamesOf(t) && n in raw
    ensures t !in Templates(m[n])
  {
    var rank := PoolRank(raw);
    if t in Templates(m[n]) {
      NamesRankBelow(render, raw, m, rank, n, t, n);
    }
  }

  // ----- how templates depend on the constants they name -----

  /** A template names constants of the pool, and the map knows all of those it names. */
  predicate Complete(t: Token, keys: set<Id>, maps: Names) {
    NamesOf(t) * keys != {} && NamesOf(t) * keys <= maps.Keys
  }

  /** A template prints nothing while the map lacks a constant that it names, or if it names none. */
  ghost predicate Waits(render: Renderer, t: Token, keys: set<Id>) {
    forall maps: Names :: maps.Keys <= keys && !Complete(t, keys, maps) ==> Rendered(render, t, maps) == [t]
  }

  ghost predicate Waiting(render: Renderer, raw: Names) {
    forall t :: t in MapTemplates(raw) ==> Waits(render, t, raw.Keys)
  }

  /** The map gives some of the constants the values that m gives them. */
  predicate PartOf(maps: Names, m: Names) {
    forall k :: k in maps ==> k in m && maps[k] == m[k]
  }

  lemma PartHasKeys(maps: Names, m: Names)
    requires PartOf(maps, m)
    ensures maps.Keys <= m.Keys
  {
    assert forall k :: k in maps.Keys ==> k in m.Keys;
  }

  /** The same for these values of the constants only. */
  ghost predicate WaitsWith(render: Renderer, t: Token, m: Names) {
    forall maps: Names :: PartOf(maps, m) && !Complete(t, m.Keys, maps) ==> Rendered(render, t, maps) == [t]
  }

  ghost predicate WaitingWith(render: Renderer, raw: Names, m: Names) {
    forall t :: t in MapTemplates(raw) ==> WaitsWith(render, t, m)
  }

  lemma WaitingAlways(render: Renderer, raw: Names, m: Names)
    requires Waiting(render, raw) && m.Keys == raw.Keys
    ensures WaitingWith(render, raw, m)
  {
    forall t, maps: Names | t in MapTemplates(raw) && PartOf(maps, m) && !Complete(t, m.Keys, maps)
      ensures Rendered(render, t, maps) == [t]
    {
      assert Waits(render, t, raw.Keys);
      PartHasKeys(maps, m);
    }
  }

  /** A template that names constants can be evaluated with these values for them. */
  ghost predicate EvaluatesWith(render: Renderer, raw: Names, m: Names) {
    forall t :: t in MapTemplates(raw) && NamesOf(t) * raw.Keys != {} ==> CanEvaluate(render, t, m)
  }

  /** It can be evaluated as soon as they are known, whatever their values. */
  ghost predicate Evaluates(render: Renderer, raw: Names) {
    forall t, maps: Names :: t in MapTemplates(raw) && maps.Keys <= raw.Keys && Complete(t, raw.Keys, maps) ==>
      CanEvaluate(render, t, maps)
  }

  /** Two constants of the pool occur in the template. */
  predicate Several(t: Token, keys: set<Id>) {
    exists a, b :: a in NamesOf(t) * keys && b in NamesOf(t) * keys && a != b
  }

  ghost predicate Single(raw: Names) {
    forall t :: t in MapTemplates(raw) ==> !Several(t, raw.Keys)
  }

  /** The rendering that leaves templates over several constants alone. */
  function Narrow(render: Renderer, keys: set<Id>): Renderer {
    (t: Token, args: seq<Option<Value>>) => if Several(t, keys) then None else render(t, args)
  }

  lemma NarrowRendered(render: Renderer, keys: set<Id>, t: Token, maps: Names)
    ensures Rendered(Narrow(render, keys), t, maps) == if Several(t, keys) then [t] else Rendered(render, t, maps)
  {}

  /** What the narrow rendering leaves unprinted. */
  lemma {:induction false} NarrowUnprinted(render: Renderer, keys: set<Id>, v: Value, maps: Names, t: Token)
    ensures t in Unprinted(render, v, maps) ==> t in Unprinted(Narrow(render, keys), v, maps)
    ensures t in Unprinted(Narrow(render, keys), v, maps) ==> Several(t, keys) || t in Unprinted(render, v, maps)
  {
    match v
    case Str(tokens) =>
    case Compound(_, items) =>
      forall i | 0 <= i < |items|
        ensures t in Unprinted(render, items[i], maps) ==> t in Unprinted(Narrow(render, keys), items[i], maps)
        ensures t in Unprinted(Narrow(render, keys), items[i], maps) ==>
                  Several(t, keys) || t in Unprinted(render, items[i], maps)
      {
        NarrowUnprinted(render, keys, items[i], maps, t);
      }
    case Atom(_) =>
  }

  lemma NarrowConservative(render: Renderer, keys: set<Id>)
    requires Conservative(render)
    ensures Conservative(Narrow(render, keys))
  {}

  lemma OnlyName(t: Token, keys: set<Id>, a: Id)
    requires a in NamesOf(t) * keys
    ensures Several(t, keys) || NamesOf(t) * keys == {a}
  {
    var names := NamesOf(t) * keys;
    if names != {a} {
      assert names == (names - {a}) + {a};
      var b := AnElement(names - {a});
    }
  }

  lemma SeveralIsIncomplete(t: Token, keys: set<Id>, a: Id, w: Value)
    requires Several(t, keys)
    ensures !Complete(t, keys, map[a := w])
  {}
}
