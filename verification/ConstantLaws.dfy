/** pipeline/component_framework/constant.py: what a resolved pool means, and exactly when. */
module ConstantLaws {
  import opened ConstantPools
  import opened CycleSearch
  import opened Expressions
  import opened Meanings
  import opened Options
  import opened Substitutions
  import opened Walks

  lemma ResolvedState(render: Renderer, raw: Names, m: Names, pool: Names)
    requires Conservative(render) && Resolved(render, raw, pool)
    ensures State(render, raw, m, map[], pool)
  {
    var order :| Chain(render, raw, order, map[], pool);
    ChainState(render, raw, m, order, map[], pool);
  }

  // ----- the main results -----

  /** On a regular pool the result is the one meaning in which templates over several constants are left alone,
      since one constant is put in at a time. */
  lemma ResolvedIsMeaning(render: Renderer, raw: Names, m: Names, pool: Names)
    requires Conservative(render) && Regular(render, raw, m) && Resolved(render, raw, pool)
    ensures pool == m
  {
    ResolvedState(render, raw, m, pool);
    AllDone(render, raw, m, pool);
  }

  lemma AllDone(render: Renderer, raw: Names, m: Names, pool: Names)
    requires Split(raw, map[], pool) && Exact(render, raw, m, map[], pool) && m.Keys == raw.Keys
    ensures pool == m
  {
    assert pool.Keys == m.Keys;
    forall k | k in m ensures pool[k] == m[k] {
      assert k in pool.Keys;
    }
  }

  /** So the order in which the dicts are gone through makes no difference. */
  lemma OrderIsImmaterial(render: Renderer, raw: Names, m: Names, pool: Names, pool': Names)
    requires Conservative(render) && Regular(render, raw, m)
    requires Resolved(render, raw, pool) && Resolved(render, raw, pool')
    ensures pool == pool'
  {
    ResolvedIsMeaning(render, raw, m, pool);
    ResolvedIsMeaning(render, raw, m, pool');
  }

  /** Every string is a single piece or has text in it. */
  predicate AllAnchored(v: Value) {
    match v
    case Str(tokens) => |tokens| <= 1 || Anchored(tokens)
    case Compound(_, items) => forall i :: 0 <= i < |items| ==> AllAnchored(items[i])
    case Atom(_) => true
  }

  lemma {:induction false} AnchoredIsFirm(render: Renderer, v: Value, m: Names)
    requires AllAnchored(v)
    ensures Firm(render, v, m)
  {
    match v
    case Str(tokens) =>
    case Compound(_, items) =>
      forall i | 0 <= i < |items| ensures Firm(render, items[i], m) {
        AnchoredIsFirm(render, items[i], m);
      }
    case Atom(_) =>
  }

  /** Anchored strings are firm whatever is printed. */
  lemma AnchoredIsRegular(render: Renderer, raw: Names, m: Names)
    requires IsMeaning(Narrow(render, raw.Keys), raw, m) && WaitingWith(render, raw, m)
    requires forall k :: k in raw ==> AllAnchored(raw[k])
    ensures Regular(render, raw, m)
  {
    forall k | k in raw ensures Firm(Narrow(render, raw.Keys), raw[k], m) {
      AnchoredIsFirm(Narrow(render, raw.Keys), raw[k], m);
    }
  }

  lemma WaitingIsRegular(render: Renderer, raw: Names) returns (m: Names)
    requires !Cyclic(RefEdges(raw)) && Waiting(render, raw) && forall k :: k in raw ==> AllAnchored(raw[k])
    ensures Regular(render, raw, m)
  {
    m := MeaningExists(Narrow(render, raw.Keys), raw);
    WaitingAlways(render, raw, m);
    AnchoredIsRegular(render, raw, m);
  }

  /** No template over several constants prints anything, even with all of them known. */
  ghost predicate SeveralSilent(render: Renderer, raw: Names, m: Names) {
    forall t :: t in MapTemplates(raw) && Several(t, raw.Keys) ==> Rendered(render, t, m) == [t]
  }

  lemma SeveralStay(render: Renderer, raw: Names, pool: Names, t: Token)
    requires Conservative(render) && Waiting(render, raw) && Resolved(render, raw, pool)
    requires t in MapTemplates(raw) && Several(t, raw.Keys)
    ensures t in MapTemplates(pool)
  {
    ResolvedState(render, raw, map[], pool);
    var k :| k in raw && t in Templates(raw[k]);
    assert k in pool.Keys;
    assert t in Templates(pool[k]);
    MapTemplatesHave(pool, k);
  }

  /** Nor does the narrow meaning touch them. */
  lemma SeveralAreLeft(render: Renderer, raw: Names, m: Names, t: Token)
    requires Regular(render, raw, m) && t in MapTemplates(raw) && Several(t, raw.Keys)
    ensures t in MapTemplates(m)
  {
    var k :| k in raw && t in Templates(raw[k]);
    NarrowRendered(render, raw.Keys, t, m);
    SeveralIsNotWhole(t, raw.Keys, m);
    SubstKeeps(Narrow(render, raw.Keys), raw[k], m, t);
    MapTemplatesHave(m, k);
  }

  /** The result of resolving a regular acyclic pool is its recursive meaning exactly when the templates over
      several constants would print nothing anyway. */
  lemma MeaningIff(render: Renderer, raw: Names, m: Names, pool: Names)
    requires Conservative(render) && Regular(render, raw, m) && !Cyclic(RefEdges(raw)) && Resolved(render, raw, pool)
    ensures IsMeaning(render, raw, pool) <==> SeveralSilent(render, raw, m)
  {
    ResolvedIsMeaning(render, raw, m, pool);
    if IsMeaning(render, raw, pool) {
      MeaningIsSettled(render, raw, m);
      forall t | t in MapTemplates(raw) && Several(t, raw.Keys) ensures Rendered(render, t, m) == [t] {
        SeveralAreLeft(render, raw, m, t);
      }
    }
    if SeveralSilent(render, raw, m) {
      SilentMeans(render, raw, pool);
    }
  }

  lemma SilentMeans(render: Renderer, raw: Names, m: Names)
    requires IsMeaning(Narrow(render, raw.Keys), raw, m) && SeveralSilent(render, raw, m)
    ensures IsMeaning(render, raw, m)
  {
    forall k | k in raw ensures m[k] == Subst(render, raw[k], m) {
      MapTemplatesHave(raw, k);
      forall t | t in Templates(raw[k]) ensures Agrees(Narrow(render, raw.Keys), m, render, m, t) {
        NarrowRendered(render, raw.Keys, t, m);
      }
      SubstAgrees(Narrow(render, raw.Keys), m, render, m, raw[k]);
    }
  }

  /** A template over several constants that can be evaluated prints something else than itself. */
  lemma SeveralPrint(render: Renderer, raw: Names, m: Names, t: Token)
    requires Conservative(render) && Regular(render, raw, m) && !Cyclic(RefEdges(raw))
    requires Several(t, raw.Keys) && CanEvaluate(render, t, m)
    ensures Rendered(render, t, m) != [t]
  {
    if Rendered(render, t, m) == [t] {
      assert t in TokenTemplates([t]);
      var n := RenderedBrings(render, t, m, t);
      NarrowConservative(render, raw.Keys);
      NoOwnTemplate(Narrow(render, raw.Keys), raw, m, n, t);
    }
  }

  /** When the templates that name constants can be evaluated with the meanings: exactly when none names several. */
  lemma SingleIff(render: Renderer, raw: Names, m: Names, pool: Names)
    requires Conservative(render) && Regular(render, raw, m) && !Cyclic(RefEdges(raw)) && Resolved(render, raw, pool)
    requires EvaluatesWith(render, raw, m)
    ensures IsMeaning(render, raw, pool) <==> Single(raw)
  {
    MeaningIff(render, raw, m, pool);
    forall t | t in MapTemplates(raw) && Several(t, raw.Keys) ensures Rendered(render, t, m) != [t] {
      assert NamesOf(t) * raw.Keys != {};
      SeveralPrint(render, raw, m, t);
    }
  }

  // ----- which references are left -----

  /** A template over several constants that is left is a reference that is left. */
  lemma SeveralIsReference(pool: Names, t: Token)
    requires t in MapTemplates(pool) && Several(t, pool.Keys)
    ensures !NoReferenceLeft(pool)
  {
    var k :| k in pool && t in Templates(pool[k]);
    var n :| n in NamesOf(t) * pool.Keys;
    HasReference(pool[k], t, n);
  }

  /** Of any pool of templates that always wait, regular or not, and whatever they print. */
  lemma NoReferenceLeftIsSingle(render: Renderer, raw: Names, pool: Names)
    requires Conservative(render) && Waiting(render, raw) && Resolved(render, raw, pool) && NoReferenceLeft(pool)
    ensures Single(raw)
  {
    ResolvedState(render, raw, map[], pool);
    assert pool.Keys == raw.Keys;
    forall t | t in MapTemplates(raw) ensures !Several(t, raw.Keys) {
      if Several(t, raw.Keys) {
        SeveralStay(render, raw, pool, t);
        SeveralIsReference(pool, t);
      }
    }
  }

  /** Every template that names a constant can be evaluated with the meanings, or is a lone name. */
  ghost predicate AllPrint(render: Renderer, raw: Names, m: Names) {
    forall k, t :: k in raw && t in Unprinted(render, raw[k], m) ==> NamesOf(t) !! raw.Keys
  }

  /** A resolved regular pool names none of its constants exactly when no template names several of them and each that
      names one can be evaluated with its meaning, lone names aside. */
  lemma NoReferenceLeftExactly(render: Renderer, raw: Names, m: Names, pool: Names)
    requires Conservative(render) && Regular(render, raw, m) && !Cyclic(RefEdges(raw)) && Resolved(render, raw, pool)
    ensures NoReferenceLeft(pool) <==> Single(raw) && AllPrint(render, raw, m)
  {
    ResolvedIsMeaning(render, raw, m, pool);
    if NoReferenceLeft(pool) {
      forall t | t in MapTemplates(raw) ensures !Several(t, raw.Keys) {
        if Several(t, raw.Keys) {
          SeveralAreLeft(render, raw, m, t);
          SeveralIsReference(m, t);
        }
      }
      forall k, t | k in raw && t in Unprinted(render, raw[k], m) ensures NamesOf(t) !! raw.Keys {
        UnprintedIsLeft(render, raw, m, k, t);
      }
    }
    if Single(raw) && AllPrint(render, raw, m) {
      forall k, t | k in m && t in Templates(m[k]) ensures NamesOf(t) !! raw.Keys {
        LeftWasUnprinted(render, raw, m, k, t);
      }
      assert NoReferenceLeft(m);
    }
  }

  lemma UnprintedIsLeft(render: Renderer, raw: Names, m: Names, k: Id, t: Token)
    requires Regular(render, raw, m) && NoReferenceLeft(m) && k in raw && t in Unprinted(render, raw[k], m)
    ensures NamesOf(t) !! raw.Keys
  {
    NarrowUnprinted(render, raw.Keys, raw[k], m, t);
    UnprintedStay(Narrow(render, raw.Keys), raw[k], m, t);
    forall n | n in NamesOf(t) ensures n !in raw {
      HasReference(m[k], t, n);
    }
  }

  lemma LeftWasUnprinted(render: Renderer, raw: Names, m: Names, k: Id, t: Token)
    requires Conservative(render) && Regular(render, raw, m) && !Cyclic(RefEdges(raw))
    requires Single(raw) && AllPrint(render, raw, m) && k in m && t in Templates(m[k])
    ensures NamesOf(t) !! raw.Keys
  {
    var rank := PoolRank(raw);
    NarrowConservative(render, raw.Keys);
    var l := MeaningOrigin(Narrow(render, raw.Keys), raw, m, rank, k, t);
    UnprintedStay(Narrow(render, raw.Keys), raw[l], m, t);
    MapTemplatesHave(raw, l);
    NarrowUnprinted(render, raw.Keys, raw[l], m, t);
  }

  lemma EvaluatedPrint(render: Renderer, raw: Names, m: Names)
    requires EvaluatesWith(render, raw, m)
    ensures AllPrint(render, raw, m)
  {
    forall k, t | k in raw && t in Unprinted(render, raw[k], m) ensures NamesOf(t) !! raw.Keys {
      MapTemplatesHave(raw, k);
      NotEvaluated(render, raw[k], m, t);
      assert NamesOf(t) * raw.Keys == {};
      assert forall n :: n in NamesOf(t) && n in raw ==> n in NamesOf(t) * raw.Keys;
    }
  }

  lemma {:induction false} NotEvaluated(render: Renderer, v: Value, m: Names, t: Token)
    requires t in Unprinted(render, v, m)
    ensures t in Templates(v) && !CanEvaluate(render, t, m)
  {
    match v
    case Str(tokens) =>
    case Compound(_, items) =>
      var i :| 0 <= i < |items| && t in Unprinted(render, items[i], m);
      NotEvaluated(render, items[i], m, t);
    case Atom(_) =>
  }

  /** When the templates that name constants can be evaluated with the meanings: exactly when none names several. */
  lemma NoReferenceLeftIff(render: Renderer, raw: Names, m: Names, pool: Names)
    requires Conservative(render) && Regular(render, raw, m) && !Cyclic(RefEdges(raw)) && Resolved(render, raw, pool)
    requires EvaluatesWith(render, raw, m)
    ensures NoReferenceLeft(pool) <==> Single(raw)
  {
    EvaluatedPrint(render, raw, m);
    NoReferenceLeftExactly(render, raw, m, pool);
  }

  /** Of any pool, regular or not: when templates name one constant each and print whatever its value is, no
      reference is left. */
  lemma ResolvedBare(render: Renderer, raw: Names, pool: Names)
    requires Conservative(render) && Evaluates(render, raw) && Single(raw) && Resolved(render, raw, pool)
    ensures NoReferenceLeft(pool)
  {
    ResolvedState(render, raw, map[], pool);
  }

  /** Where the pool is a meaning, resolving a value substitutes it, in whatever order the templates are met. */
  lemma ValueIsSubst(render: Renderer, raw: Names, pool: Names, v: Value, r: Value)
    requires Conservative(render) && !Cyclic(RefEdges(raw)) && IsMeaning(render, raw, pool)
    requires ResolvesTo(render, v, pool, r)
    ensures r == Subst(render, v, pool)
  {
    MeaningIsSettled(render, raw, pool);
    ResolvedIsSubst(render, v, pool, r);
  }

  // ----- pools of plain names -----

  /** Every template is a single name, which prints whatever its value is. */
  ghost predicate PlainNames(render: Renderer, raw: Names) {
    forall t :: t in MapTemplates(raw) ==> t.Tpl? && |t.names| == 1 && forall x :: render(t, [Some(x)]).Some?
  }

  /** None of the names is that of a builtin: without a value it prints nothing. */
  ghost predicate NoBuiltins(render: Renderer, raw: Names) {
    forall t :: t in MapTemplates(raw) ==> render(t, [None]) == None
  }

  lemma PlainNameEvaluates(render: Renderer, raw: Names, t: Token, maps: Names)
    requires PlainNames(render, raw) && t in MapTemplates(raw)
    ensures NamesOf(t) == {t.names[0]} && Args(t.names, maps) == [Lookup(maps, t.names[0])]
    ensures maps.Keys <= raw.Keys ==> (Complete(t, raw.Keys, maps) <==> t.names[0] in maps)
  {
    assert t.names[0] in raw ==> NamesOf(t) * raw.Keys == {t.names[0]};
  }

  lemma PlainNamesEvaluate(render: Renderer, raw: Names)
    requires PlainNames(render, raw)
    ensures Evaluates(render, raw) && Single(raw)
  {
    forall t, maps: Names | t in MapTemplates(raw) && maps.Keys <= raw.Keys && Complete(t, raw.Keys, maps)
      ensures CanEvaluate(render, t, maps)
    {
      PlainNameEvaluates(render, raw, t, maps);
    }
    forall t | t in MapTemplates(raw) ensures !Several(t, raw.Keys) {
      PlainNameEvaluates(render, raw, t, raw);
    }
  }

  /** A template that prints nothing made up prints nothing at all in place of itself. */
  lemma PrintsOther(render: Renderer, t: Token)
    requires Conservative(render) && CanEvaluate(render, t, map[])
    ensures Rendered(render, t, map[]) != [t]
  {
    assert t in TokenTemplates([t]);
    assert ArgTemplates(Args(t.names, map[])) == {};
  }

  /** Plain names wait exactly when none is that of a builtin. */
  lemma PlainNamesWaitIff(render: Renderer, raw: Names)
    requires Conservative(render) && PlainNames(render, raw)
    ensures Waiting(render, raw) <==> NoBuiltins(render, raw)
  {
    if Waiting(render, raw) {
      forall t | t in MapTemplates(raw) ensures render(t, [None]) == None {
        PlainNameEvaluates(render, raw, t, map[]);
        assert Waits(render, t, raw.Keys);
        if CanEvaluate(render, t, map[]) {
          PrintsOther(render, t);
        }
      }
    }
    if NoBuiltins(render, raw) {
      forall t, maps: Names | t in MapTemplates(raw) && maps.Keys <= raw.Keys && !Complete(t, raw.Keys, maps)
        ensures Rendered(render, t, maps) == [t]
      {
        PlainNameEvaluates(render, raw, t, maps);
      }
    }
  }

  /** Plain names leave no reference, whatever they are and however strings are put together. */
  lemma PlainNamesLeaveNone(render: Renderer, raw: Names, pool: Names)
    requires Conservative(render) && PlainNames(render, raw) && Resolved(render, raw, pool)
    ensures NoReferenceLeft(pool)
  {
    PlainNamesEvaluate(render, raw);
    ResolvedBare(render, raw, pool);
  }

  /** What constants are for: plain names, none of them that of a builtin, in strings with text in them or by
      themselves, resolve to the recursive meaning of an acyclic pool in every order. */
  lemma PlainNamesResolve(render: Renderer, raw: Names, pool: Names)
    requires Conservative(render) && !Cyclic(RefEdges(raw)) && Resolved(render, raw, pool)
    requires PlainNames(render, raw) && NoBuiltins(render, raw)
    requires forall k :: k in raw ==> AllAnchored(raw[k])
    ensures IsMeaning(render, raw, pool)
  {
    PlainNamesWaitIff(render, raw);
    PlainNamesEvaluate(render, raw);
    var m := WaitingIsRegular(render, raw);
    forall t | t in MapTemplates(raw) && NamesOf(t) * raw.Keys != {} ensures CanEvaluate(render, t, m) {
      assert Complete(t, raw.Keys, m);
    }
    SingleIff(render, raw, m, pool);
  }

  // ----- examples -----

  lemma {:induction false} PlainResolves(render: Renderer, v: Value, maps: Names)
    requires Templates(v) == {}
    ensures ResolvesTo(render, v, maps, v)
  {
    match v
    case Str(tokens) =>
      WholeIsSingle(tokens, maps);
      assert Elements<Token>([]) == {};
      assert IsResolvedIn(render, tokens, [], maps, tokens);
    case Compound(_, items) =>
      forall i | 0 <= i < |items| ensures ResolvesTo(render, items[i], maps, items[i]) {
        ItemTemplatesHave(items, i);
        PlainResolves(render, items[i], maps);
      }
    case Atom(_) =>
  }

  const A: Id := 1
  const B: Id := 2
  const C: Id := 3

  /** `${a+b}` over two constants. */
  const SUM := Tpl([A, B], 5)
  const SUM_POOL: Names := map[A := Str([Text(11)]), B := Str([Text(12)]), C := Str([SUM])]

  lemma SumPool()
    ensures Templates(SUM_POOL[A]) == {} && Templates(SUM_POOL[B]) == {} && Templates(SUM_POOL[C]) == {SUM}
    ensures NamesOf(SUM) == {A, B} && SUM_POOL.Keys == {A, B, C}
  {}

  lemma SumPoolTemplates()
    ensures MapTemplates(SUM_POOL) == {SUM} && Several(SUM, SUM_POOL.Keys) && !Cyclic(RefEdges(SUM_POOL))
  {
    SumPool();
    MapTemplatesHave(SUM_POOL, C);
    assert A in NamesOf(SUM) * SUM_POOL.Keys && B in NamesOf(SUM) * SUM_POOL.Keys;
    RankedIsAcyclic(RefEdges(SUM_POOL), map[A := 0, B := 0, C := 1]);
  }

  /** An addition cannot be evaluated while an operand is missing. */
  ghost predicate NeedsBoth(render: Renderer) {
    forall x, y :: render(SUM, [x, y]).Some? ==> x.Some? && y.Some?
  }

  lemma SumWaits(render: Renderer, maps: Names)
    requires NeedsBoth(render)
    ensures Rendered(render, SUM, maps) == [SUM] || (A in maps && B in maps)
  {
    assert Args([A, B], maps) == [Lookup(maps, A), Lookup(maps, B)];
  }

  lemma SumPoolWaits(render: Renderer)
    requires NeedsBoth(render)
    ensures Waiting(render, SUM_POOL)
  {
    SumPool();
    SumPoolTemplates();
    forall maps: Names | maps.Keys <= SUM_POOL.Keys && !Complete(SUM, SUM_POOL.Keys, maps)
      ensures Rendered(render, SUM, maps) == [SUM]
    {
      SumWaits(render, maps);
    }
  }

  /** So it is left as it is, whatever the order. */
  lemma TwoNamesAreLeft(render: Renderer, pool: Names)
    requires Conservative(render) && NeedsBoth(render) && Resolved(render, SUM_POOL, pool)
    ensures SUM in MapTemplates(pool)
  {
    SumPoolWaits(render);
    SumPoolTemplates();
    SeveralStay(render, SUM_POOL, pool, SUM);
  }

  /** Although with the values of both, it could be evaluated. */
  lemma SumIsNotMeant(render: Renderer, pool: Names)
    requires Conservative(render) && NeedsBoth(render) && Resolved(render, SUM_POOL, pool)
    requires render(SUM, [Some(SUM_POOL[A]), Some(SUM_POOL[B])]).Some?
    ensures !IsMeaning(render, SUM_POOL, pool)
  {
    SumPoolWaits(render);
    SumPoolTemplates();
    SumPool();
    var m := WaitingIsRegular(render, SUM_POOL);
    SubstUntouched(Narrow(render, SUM_POOL.Keys), SUM_POOL[A], m);
    SubstUntouched(Narrow(render, SUM_POOL.Keys), SUM_POOL[B], m);
    assert Args([A, B], m) == [Some(SUM_POOL[A]), Some(SUM_POOL[B])];
    SingleIff(render, SUM_POOL, m, pool);
  }

  /** `${int(b)+1}`: the builtin has no value, and the expression is evaluated all the same. */
  const NUMBER := Tpl([9, B], 8)
  const NUMBER_POOL: Names := map[B := Str([Text(12)]), C := Str([NUMBER])]

  lemma NumberTemplates()
    ensures Templates(NUMBER_POOL[B]) == {}
    ensures MapTemplates(NUMBER_POOL) == {NUMBER} && NamesOf(NUMBER) == {9, B} && NUMBER_POOL.Keys == {B, C}
    ensures NamesOf(NUMBER) * NUMBER_POOL.Keys == {B} && !Several(NUMBER, NUMBER_POOL.Keys)
  {
    assert Templates(NUMBER_POOL[B]) == {} && Templates(NUMBER_POOL[C]) == {NUMBER};
    MapTemplatesHave(NUMBER_POOL, C);
  }

  lemma NumberWaits(render: Renderer)
    requires render(NUMBER, [None, None]) == None
    ensures Waiting(render, NUMBER_POOL)
  {
    NumberTemplates();
    forall maps: Names | maps.Keys <= NUMBER_POOL.Keys && !Complete(NUMBER, NUMBER_POOL.Keys, maps)
      ensures Rendered(render, NUMBER, maps) == [NUMBER]
    {
      assert Args([9, B], maps) == [None, Lookup(maps, B)];
    }
  }

  lemma NumberIsAcyclic()
    ensures !Cyclic(RefEdges(NUMBER_POOL))
  {
    NumberTemplates();
    RankedIsAcyclic(RefEdges(NUMBER_POOL), map[B := 0, C := 1]);
  }

  lemma NumberMeans(render: Renderer, out: seq<Token>, m: Names)
    requires render(NUMBER, [None, Some(NUMBER_POOL[B])]) == Some(out)
    requires IsMeaning(Narrow(render, NUMBER_POOL.Keys), NUMBER_POOL, m)
    ensures m == map[B := NUMBER_POOL[B], C := Str(out)] && CanEvaluate(render, NUMBER, m)
  {
    NumberTemplates();
    var narrow := Narrow(render, NUMBER_POOL.Keys);
    SubstUntouched(narrow, NUMBER_POOL[B], m);
    assert Args([9, B], m) == [None, Some(NUMBER_POOL[B])];
    SingletonTokens(narrow, NUMBER, m);
    NarrowRendered(render, NUMBER_POOL.Keys, NUMBER, m);
  }

  /** It raises while b is missing, and prints once b is put in, so that no reference is left. */
  lemma BuiltinsAreNoReferences(render: Renderer, out: seq<Token>, pool: Names)
    requires Conservative(render) && Resolved(render, NUMBER_POOL, pool)
    requires render(NUMBER, [None, None]) == None && render(NUMBER, [None, Some(NUMBER_POOL[B])]) == Some(out)
    ensures NoReferenceLeft(pool) && pool == map[B := NUMBER_POOL[B], C := Str(out)]
  {
    NumberWaits(render);
    NumberTemplates();
    NumberIsAcyclic();
    var m := WaitingIsRegular(render, NUMBER_POOL);
    NumberMeans(render, out, m);
    ResolvedIsMeaning(render, NUMBER_POOL, m, pool);
    NoReferenceLeftIff(render, NUMBER_POOL, m, pool);
  }

  // ----- the class -----

  datatype Answer = Answer(value: Value) | CircularReference(trace: seq<Id>) | NoSuchConstant

  class ConstantPool {
    const render: Renderer
    const rawPool: Names
    var pool: Option<Names>

    ghost predicate Valid()
      reads this
    {
      Conservative(render) && (pool.Some? ==> !Cyclic(RefEdges(rawPool)) && Resolved(render, rawPool, pool.value))
    }

    constructor (render: Renderer, rawPool: Names)
      requires Conservative(render)
      ensures Valid() && this.render == render && this.rawPool == rawPool && pool == None
    {
      this.render, this.rawPool := render, rawPool;
      pool := None;
    }

    /** The reference graph's nodes and flows. */
    method ReferenceInfo() returns (nodes: seq<Id>, flows: seq<(Id, Id)>)
      ensures Elements(nodes) == rawPool.Keys && Elements(flows) == RefEdges(rawPool)
    {
      nodes, flows := [], [];
      var todo := rawPool.Keys;
      while todo != {}
        invariant todo <= rawPool.Keys && Elements(nodes) == rawPool.Keys - todo
        invariant Elements(flows) == EdgesFrom(rawPool, rawPool.Keys - todo)
        decreases |todo|
      {
        var key := Pick(todo);
        var row := FlowsOf(rawPool, key);
        ElementsSnoc(nodes, key);
        ElementsConcat(flows, row);
        EdgesFromOneMore(rawPool, rawPool.Keys - todo, key);
        assert rawPool.Keys - (todo - {key}) == rawPool.Keys - todo + {key};
        nodes, flows, todo := nodes + [key], flows + row, todo - {key};
      }
      assert rawPool.Keys - {} == rawPool.Keys;
    }

    /** resolve: raises on a circular reference, and otherwise resolves the pool once. */
    method Resolve() returns (trace: seq<Id>)
      requires Valid()
      modifies this
      ensures Valid()
      ensures trace == [] <==> !Cyclic(RefEdges(rawPool))
      ensures trace == [] ==> pool.Some? && (old(pool).Some? && old(pool.value) != map[] ==> pool == old(pool))
      ensures trace != [] ==> ClosedWalk(RefEdges(rawPool), trace) && pool == old(pool)
    {
      if pool.Some? && pool.value != map[] {
        return [];
      }
      trace := CheckReferences();
      if trace == [] {
        var resolved := ResolveAll(render, rawPool);
        pool := Some(resolved);
      }
    }

    method CheckReferences() returns (trace: seq<Id>)
      ensures trace == [] <==> !Cyclic(RefEdges(rawPool))
      ensures trace != [] ==> ClosedWalk(RefEdges(rawPool), trace)
    {
      var nodes, flows := ReferenceInfo();
      var graph := new Graph(nodes, flows);
      EdgesStartAt(rawPool, nodes);
      CycleFromIsCyclic(RefEdges(rawPool), nodes);
      trace := graph.GetCycle();
    }

    method ResolveConstant(constant: Id) returns (answer: Answer)
      requires Valid()
      modifies this
      ensures Valid()
      ensures answer.CircularReference? <==> Cyclic(RefEdges(rawPool))
      ensures answer.NoSuchConstant? <==> !Cyclic(RefEdges(rawPool)) && constant !in rawPool
      ensures answer.Answer? ==> pool.Some? && constant in pool.value && answer.value == pool.value[constant]
    {
      var trace := Resolve();
      if trace != [] {
        return CircularReference(trace);
      }
      ResolvedState(render, rawPool, map[], pool.value);
      if constant !in pool.value {
        return NoSuchConstant;
      }
      return Answer(pool.value[constant]);
    }

    method ResolveValue(v: Value) returns (answer: Answer)
      requires Valid()
      modifies this
      ensures Valid()
      ensures answer.CircularReference? <==> Cyclic(RefEdges(rawPool))
      ensures !answer.NoSuchConstant?
      ensures answer.Answer? ==> pool.Some? && ResolvesTo(render, v, pool.value, answer.value)
      ensures answer.Answer? && IsMeaning(render, rawPool, pool.value) ==> answer.value == Subst(render, v, pool.value)
    {
      var trace := Resolve();
      if trace != [] {
        return CircularReference(trace);
      }
      var r := ResolveData(render, v, pool.value);
      if IsMeaning(render, rawPool, pool.value) {
        ValueIsSubst(render, rawPool, pool.value, v, r);
      }
      return Answer(r);
    }
  }

  function EdgesFrom(pool: Names, keys: set<Id>): set<(Id, Id)> {
    set k, n | k in keys && k in pool && n in References(pool[k]) && n in pool :: (k, n)
  }

  lemma EdgesFromOneMore(pool: Names, keys: set<Id>, key: Id)
    ensures EdgesFrom(pool, keys + {key}) == EdgesFrom(pool, keys) + EdgesFrom(pool, {key})
  {}

  lemma EdgesStartAt(pool: Names, nodes: seq<Id>)
    requires Elements(nodes) == pool.Keys
    ensures forall e :: e in RefEdges(pool) ==> e.0 in nodes
  {}

  method FlowsOf(pool: Names, key: Id) returns (row: seq<(Id, Id)>)
    requires key in pool
    ensures Elements(row) == EdgesFrom(pool, {key})
  {
    row := [];
    var todo := References(pool[key]);
    while todo != {}
      invariant todo <= References(pool[key])
      invariant forall e :: e in row <==> e.0 == key && e.1 in pool && e.1 in References(pool[key]) - todo
      decreases |todo|
    {
      var n := Pick(todo);
      if n in pool {
        row := row + [(key, n)];
      }
      todo := todo - {n};
    }
  }
}
