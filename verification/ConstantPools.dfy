/** pipeline/component_framework/constant.py: the constants of a pipeline, substituted into each other. */
module ConstantPools {
  import opened CycleSearch
  import opened Expressions
  import opened Meanings
  import opened Options
  import opened Substitutions
  import opened Walks

  ghost predicate NoReferenceLeft(pool: Names) {
    forall k :: k in pool ==> References(pool[k]) !! pool.Keys
  }

  // ----- the loop -----

  /** _get_referenced_only: the constants that name no constant of the pool. */
  function Ready(pool: Names): set<Id> {
    set k | k in pool && References(pool[k]) !! pool.Keys
  }

  /** A pass: every value with the value of constant a put in. */
  ghost predicate Pass(render: Renderer, temp: Names, a: Id, next: Names)
    requires a in temp
  {
    next.Keys == temp.Keys && forall k :: k in temp ==> ResolvesTo(render, temp[k], map[a := temp[a]], next[k])
  }

  /** What holds of any pool: constants not done, and done. */
  ghost predicate Split(raw: Names, temp: Names, done: Names) {
    temp.Keys !! done.Keys && temp.Keys + done.Keys == raw.Keys
  }

  ghost predicate Shut(temp: Names, done: Names) {
    forall k :: k in done ==> References(done[k]) !! temp.Keys
  }

  ghost predicate FewerReferences(raw: Names, temp: Names) {
    forall k :: k in temp ==> k in raw && References(temp[k]) * temp.Keys <= References(raw[k])
  }

  /** No template is made up. */
  ghost predicate FromRaw(raw: Names, pool: Names) {
    MapTemplates(pool) <= MapTemplates(raw)
  }

  ghost predicate General(raw: Names, temp: Names, done: Names) {
    Split(raw, temp, done) && Shut(temp, done) && FewerReferences(raw, temp) && FromRaw(raw, temp) && FromRaw(raw, done)
  }

  lemma OneMapTemplates(a: Id, v: Value)
    ensures MapTemplates(map[a := v]) == Templates(v)
  {
    MapTemplatesHave(map[a := v], a);
  }

  lemma PassTemplates(render: Renderer, temp: Names, a: Id, next: Names, k: Id)
    requires Conservative(render) && a in temp && Pass(render, temp, a, next) && k in temp
    ensures Templates(next[k]) <= Templates(temp[k]) + Templates(temp[a])
    ensures References(next[k]) <= References(temp[k]) + References(temp[a])
  {
    forall t | t in Templates(next[k]) ensures t in Templates(temp[k]) + Templates(temp[a]) {
      ResolvedHas(render, temp[k], map[a := temp[a]], next[k], t);
      OneMapTemplates(a, temp[a]);
    }
    ReferencesOfMore(next[k], temp[k], temp[a]);
  }

  lemma ReferencesOfMore(v: Value, u: Value, w: Value)
    requires Templates(v) <= Templates(u) + Templates(w)
    ensures References(v) <= References(u) + References(w)
  {}

  lemma PassFromRaw(render: Renderer, raw: Names, temp: Names, a: Id, next: Names)
    requires Conservative(render) && a in temp && Pass(render, temp, a, next) && FromRaw(raw, temp)
    ensures FromRaw(raw, next)
  {
    forall t | t in MapTemplates(next) ensures t in MapTemplates(raw) {
      var k :| k in next && t in Templates(next[k]);
      PassTemplates(render, temp, a, next, k);
      MapTemplatesHave(temp, k);
      MapTemplatesHave(temp, a);
    }
  }

  lemma FromRawMoves(raw: Names, next: Names, done: Names, a: Id)
    requires FromRaw(raw, next) && FromRaw(raw, done) && a in next
    ensures FromRaw(raw, next - {a}) && FromRaw(raw, done[a := next[a]])
  {
    MapTemplatesHave(next, a);
    forall t | t in MapTemplates(done[a := next[a]]) ensures t in MapTemplates(raw) {
      var k :| k in done[a := next[a]] && t in Templates(done[a := next[a]][k]);
      if k != a {
        MapTemplatesHave(done, k);
      }
    }
    forall t | t in MapTemplates(next - {a}) ensures t in MapTemplates(raw) {
      var k :| k in next - {a} && t in Templates((next - {a})[k]);
      MapTemplatesHave(next, k);
    }
  }

  lemma GeneralStep(render: Renderer, raw: Names, temp: Names, done: Names, a: Id, next: Names)
    requires Conservative(render) && General(raw, temp, done) && a in Ready(temp) && Pass(render, temp, a, next)
    ensures General(raw, next - {a}, done[a := next[a]])
    ensures Ready(temp) - {a} <= Ready(next - {a})
  {
    forall k | k in temp ensures References(next[k]) <= References(temp[k]) + References(temp[a]) {
      PassTemplates(render, temp, a, next, k);
    }
    PassFromRaw(render, raw, temp, a, next);
    FromRawMoves(raw, next, done, a);
  }

  // ----- templates over several constants, when templates wait for the constants they name -----

  /** They are never touched. */
  ghost predicate KeepsSeveral(raw: Names, pool: Names) {
    forall k, t :: k in pool && k in raw && t in Templates(raw[k]) && Several(t, raw.Keys) ==> t in Templates(pool[k])
  }

  lemma SeveralIsNotWhole(t: Token, keys: set<Id>, maps: Names)
    requires Several(t, keys)
    ensures !Whole([t], maps)
  {
    WholeIsSingle([t], maps);
  }

  lemma PassKeepsSeveral(render: Renderer, raw: Names, temp: Names, a: Id, next: Names)
    requires Waiting(render, raw) && temp.Keys <= raw.Keys
    requires a in temp && Pass(render, temp, a, next) && KeepsSeveral(raw, temp)
    ensures KeepsSeveral(raw, next)
  {
    forall k, t | k in next && k in raw && t in Templates(raw[k]) && Several(t, raw.Keys)
      ensures t in Templates(next[k])
    {
      MapTemplatesHave(raw, k);
      SeveralIsIncomplete(t, raw.Keys, a, temp[a]);
      SeveralIsNotWhole(t, raw.Keys, map[a := temp[a]]);
      assert Waits(render, t, raw.Keys);
      ResolvedKeeps(render, temp[k], map[a := temp[a]], next[k], t);
    }
  }

  lemma KeepsStep(render: Renderer, raw: Names, temp: Names, done: Names, a: Id, next: Names)
    requires Waiting(render, raw) && Split(raw, temp, done) && a in temp && Pass(render, temp, a, next)
    requires KeepsSeveral(raw, temp) && KeepsSeveral(raw, done)
    ensures KeepsSeveral(raw, next - {a}) && KeepsSeveral(raw, done[a := next[a]])
  {
    PassKeepsSeveral(render, raw, temp, a, next);
  }

  // ----- the values, when templates wait and strings are firm -----

  /** What the values are compared with: the meaning in which templates over several constants are left alone. With its
      values for the constants, templates wait and strings are firm. */
  ghost predicate Regular(render: Renderer, raw: Names, m: Names) {
    && IsMeaning(Narrow(render, raw.Keys), raw, m)
    && WaitingWith(render, raw, m)
    && forall k :: k in raw ==> Firm(Narrow(render, raw.Keys), raw[k], m)
  }

  /** Finished constants have their meanings; the others are raw values with the finished ones put in. */
  ghost predicate Exact(render: Renderer, raw: Names, m: Names, temp: Names, done: Names) {
    && PartOf(done, m)
    && (forall k :: k in temp && k in raw ==> temp[k] == Subst(Narrow(render, raw.Keys), raw[k], done))
  }

  /** A template that the constants so far do not complete is left, also by the narrow rendering. */
  lemma Incomplete(render: Renderer, raw: Names, m: Names, t: Token, maps: Names)
    requires Regular(render, raw, m) && t in MapTemplates(raw) && PartOf(maps, m)
    requires !Complete(t, raw.Keys, maps)
    ensures Rendered(render, t, maps) == [t] && Rendered(Narrow(render, raw.Keys), t, maps) == [t]
    ensures !Whole([t], maps)
  {
    assert WaitsWith(render, t, m);
    PartHasKeys(maps, m);
    NarrowRendered(render, raw.Keys, t, maps);
    WholeIsComplete(t, raw.Keys, maps);
  }

  lemma WholeIsComplete(t: Token, keys: set<Id>, maps: Names)
    requires maps.Keys <= keys
    ensures Whole([t], maps) ==> Complete(t, keys, maps)
  {
    WholeIsSingle([t], maps);
    if Whole([t], maps) {
      assert [t][0] == t && t.names[0] in NamesOf(t) * keys;
    }
  }

  /** For one constant both renderings do the same. */
  lemma NarrowOnOne(render: Renderer, raw: Names, m: Names, t: Token, a: Id)
    requires Regular(render, raw, m) && t in MapTemplates(raw) && a in raw
    ensures Agrees(render, map[a := m[a]], Narrow(render, raw.Keys), map[a := m[a]], t)
  {
    NarrowRendered(render, raw.Keys, t, map[a := m[a]]);
    if Several(t, raw.Keys) {
      SeveralIsIncomplete(t, raw.Keys, a, m[a]);
      Incomplete(render, raw, m, t, map[a := m[a]]);
    }
  }

  /** A template without the constant's name is not changed by it. */
  lemma NotNamedIsInert(render: Renderer, raw: Names, m: Names, t: Token, a: Id)
    requires Regular(render, raw, m) && t in MapTemplates(raw) && a in raw && a !in NamesOf(t)
    ensures Inert(render, t, a, m[a]) && Inert(Narrow(render, raw.Keys), t, a, m[a]) && !Whole([t], map[a := m[a]])
  {
    Incomplete(render, raw, m, t, map[a := m[a]]);
  }

  lemma ReadyIsInert(render: Renderer, raw: Names, m: Names, temp: Names, a: Id)
    requires Regular(render, raw, m) && FromRaw(raw, temp) && temp.Keys <= raw.Keys && a in Ready(temp)
    requires temp[a] == m[a]
    ensures forall t :: t in Templates(m[a]) ==> Inert(render, t, a, m[a]) && !Whole([t], map[a := m[a]])
    ensures Settled(render, map[a := m[a]])
  {
    forall t | t in Templates(m[a]) ensures Inert(render, t, a, m[a]) && !Whole([t], map[a := m[a]]) {
      MapTemplatesHave(temp, a);
      NotNamed(temp[a], t, a);
      NotNamedIsInert(render, raw, m, t, a);
    }
    OneMapTemplates(a, m[a]);
  }

  lemma NotNamed(v: Value, t: Token, a: Id)
    requires t in Templates(v) && a !in References(v)
    ensures a !in NamesOf(t)
  {}

  /** Its own pass leaves a constant as it is. */
  lemma OwnValueStays(render: Renderer, raw: Names, m: Names, temp: Names, a: Id, next: Names)
    requires Conservative(render) && Regular(render, raw, m) && FromRaw(raw, temp) && temp.Keys <= raw.Keys
    requires a in Ready(temp) && temp[a] == m[a] && Pass(render, temp, a, next)
    ensures next[a] == m[a]
  {
    ReadyIsInert(render, raw, m, temp, a);
    ResolvedIsSubst(render, temp[a], map[a := temp[a]], next[a]);
    SubstUntouched(render, temp[a], map[a := temp[a]]);
  }

  /** The finished constants hold nothing that a further one changes. */
  lemma DoneJoins(render: Renderer, raw: Names, m: Names, temp: Names, done: Names, a: Id)
    requires Regular(render, raw, m) && General(raw, temp, done) && a in temp
    ensures Joins(Narrow(render, raw.Keys), done, a, m[a])
  {
    forall t | t in MapTemplates(done) ensures Inert(Narrow(render, raw.Keys), t, a, m[a]) {
      var k :| k in done && t in Templates(done[k]);
      NotNamed(done[k], t, a);
      NotNamedIsInert(render, raw, m, t, a);
    }
  }

  /** Lookups agree when the map grows by a constant that the template does not name. */
  lemma GrowsElsewhere(t: Token, m: Names, a: Id, w: Value)
    requires a !in NamesOf(t)
    ensures SameFor(t, m, m[a := w])
  {}

  /** A template that a completes names no other constant of the pool. */
  lemma NamesOnly(t: Token, keys: set<Id>, m: Names, a: Id, w: Value)
    requires a in NamesOf(t) && a in keys && a !in m && m.Keys <= keys && !Several(t, keys)
    ensures SameFor(t, map[a := w], m[a := w])
  {
    OnlyName(t, keys, a);
    forall n | n in NamesOf(t) ensures Lookup(map[a := w], n) == Lookup(m[a := w], n) {
      assert n in keys ==> n in NamesOf(t) * keys;
    }
  }

  lemma TemplateCompletes(render: Renderer, raw: Names, m: Names, done: Names, a: Id, t: Token)
    requires Regular(render, raw, m) && t in MapTemplates(raw) && PartOf(done, m) && a in raw && a !in done
    ensures Completes(Narrow(render, raw.Keys), t, done, a, m[a])
    ensures Rendered(Narrow(render, raw.Keys), t, done) == [t] || a !in NamesOf(t)
  {
    var narrow, w := Narrow(render, raw.Keys), m[a];
    PartHasKeys(done, m);
    if a in NamesOf(t) {
      assert a in NamesOf(t) * raw.Keys;
      Incomplete(render, raw, m, t, done);
      if Several(t, raw.Keys) {
        NarrowRendered(render, raw.Keys, t, map[a := w]);
        NarrowRendered(render, raw.Keys, t, done[a := w]);
      } else {
        NamesOnly(t, raw.Keys, done, a, w);
        SameAgrees(narrow, t, map[a := w], done[a := w]);
      }
    } else {
      GrowsElsewhere(t, done, a, w);
      SameAgrees(narrow, t, done, done[a := w]);
      NotNamedIsInert(render, raw, m, t, a);
    }
  }

  /** The finished constants print what the meanings print, or nothing yet. */
  lemma PartOfMeaning(render: Renderer, raw: Names, m: Names, done: Names, t: Token)
    requires Regular(render, raw, m) && t in MapTemplates(raw) && PartOf(done, m)
    ensures var narrow := Narrow(render, raw.Keys);
            Rendered(narrow, t, done) == [t] || Agrees(narrow, done, narrow, m, t)
    ensures Complete(t, raw.Keys, done) ==> Agrees(Narrow(render, raw.Keys), done, Narrow(render, raw.Keys), m, t)
  {
    var narrow := Narrow(render, raw.Keys);
    if Complete(t, raw.Keys, done) {
      forall n | n in NamesOf(t) ensures Lookup(done, n) == Lookup(m, n) {
        assert n in raw.Keys ==> n in NamesOf(t) * raw.Keys;
      }
      SameAgrees(narrow, t, done, m);
    } else {
      Incomplete(render, raw, m, t, done);
    }
  }

  lemma {:induction false} FirmSoFar(render: Renderer, raw: Names, m: Names, done: Names, v: Value)
    requires Regular(render, raw, m) && Templates(v) <= MapTemplates(raw) && PartOf(done, m)
    requires Firm(Narrow(render, raw.Keys), v, m)
    ensures Firm(Narrow(render, raw.Keys), v, done)
  {
    var narrow := Narrow(render, raw.Keys);
    match v
    case Str(tokens) =>
      if NoneVanishes(narrow, tokens, m) {
        forall t | t in tokens ensures Rendered(narrow, t, done) != [] {
          if t.Tpl? {
            assert t in TokenTemplates(tokens);
            PartOfMeaning(render, raw, m, done, t);
          }
        }
      }
    case Compound(_, items) =>
      forall i | 0 <= i < |items| ensures Firm(narrow, items[i], done) {
        ItemTemplatesHave(items, i);
        FirmSoFar(render, raw, m, done, items[i]);
      }
    case Atom(_) =>
  }

  /** A ready constant has its meaning. */
  lemma ReadyMeans(render: Renderer, raw: Names, m: Names, temp: Names, done: Names, a: Id)
    requires General(raw, temp, done) && Regular(render, raw, m) && Exact(render, raw, m, temp, done)
            && a in Ready(temp)
    ensures temp[a] == m[a]
  {
    var narrow := Narrow(render, raw.Keys);
    MapTemplatesHave(raw, a);
    forall t | t in Templates(raw[a]) ensures Agrees(narrow, done, narrow, m, t) {
      PartOfMeaning(render, raw, m, done, t);
      if !Complete(t, raw.Keys, done) {
        Incomplete(render, raw, m, t, done);
        NothingAwaited(render, raw, m, temp, done, a, t);
        Incomplete(render, raw, m, t, m);
      }
    }
    SubstAgrees(narrow, done, narrow, m, raw[a]);
  }

  /** A ready constant waits for nothing: what is incomplete in it names no constant at all. */
  lemma NothingAwaited(render: Renderer, raw: Names, m: Names, temp: Names, done: Names, a: Id, t: Token)
    requires General(raw, temp, done) && Regular(render, raw, m) && PartOf(done, m)
    requires a in Ready(temp) && t in Templates(raw[a])
    requires temp[a] == Subst(Narrow(render, raw.Keys), raw[a], done) && !Complete(t, raw.Keys, done)
    ensures NamesOf(t) * raw.Keys == {}
  {
    MapTemplatesHave(raw, a);
    Incomplete(render, raw, m, t, done);
    SubstKeeps(Narrow(render, raw.Keys), raw[a], done, t);
    forall n | n in NamesOf(t) ensures n !in temp {
      HasReference(temp[a], t, n);
    }
  }

  lemma ExactNext(render: Renderer, raw: Names, m: Names, temp: Names, done: Names, a: Id, next: Names, k: Id)
    requires Conservative(render) && General(raw, temp, done)
    requires Regular(render, raw, m) && Exact(render, raw, m, temp, done)
    requires a in Ready(temp) && temp[a] == m[a] && Pass(render, temp, a, next) && k in temp
    ensures next[k] == Subst(Narrow(render, raw.Keys), raw[k], done[a := m[a]])
  {
    var narrow, w := Narrow(render, raw.Keys), m[a];
    ReadyIsInert(render, raw, m, temp, a);
    ResolvedIsSubst(render, temp[k], map[a := w], next[k]);
    forall t | t in Templates(temp[k]) ensures Agrees(render, map[a := w], narrow, map[a := w], t) {
      MapTemplatesHave(temp, k);
      NarrowOnOne(render, raw, m, t, a);
    }
    SubstAgrees(render, map[a := w], narrow, map[a := w], temp[k]);
    ComposeNext(render, raw, m, temp, done, a, k);
  }

  lemma ComposeNext(render: Renderer, raw: Names, m: Names, temp: Names, done: Names, a: Id, k: Id)
    requires Conservative(render) && General(raw, temp, done)
    requires Regular(render, raw, m) && Exact(render, raw, m, temp, done) && a in temp && k in temp
    ensures var narrow := Narrow(render, raw.Keys);
            Subst(narrow, temp[k], map[a := m[a]]) == Subst(narrow, raw[k], done[a := m[a]])
  {
    var narrow := Narrow(render, raw.Keys);
    NarrowConservative(render, raw.Keys);
    DoneJoins(render, raw, m, temp, done, a);
    MapTemplatesHave(raw, k);
    forall t | t in Templates(raw[k])
      ensures Completes(narrow, t, done, a, m[a]) && (Rendered(narrow, t, done) == [t] || a !in NamesOf(t))
    {
      TemplateCompletes(render, raw, m, done, a, t);
    }
    FirmSoFar(render, raw, m, done, raw[k]);
    Compose(narrow, raw[k], done, a, m[a]);
  }

  lemma ExactStep(render: Renderer, raw: Names, m: Names, temp: Names, done: Names, a: Id, next: Names)
    requires Conservative(render) && General(raw, temp, done)
    requires Regular(render, raw, m) && Exact(render, raw, m, temp, done)
    requires a in Ready(temp) && Pass(render, temp, a, next)
    ensures Exact(render, raw, m, next - {a}, done[a := next[a]])
  {
    ReadyMeans(render, raw, m, temp, done, a);
    OwnValueStays(render, raw, m, temp, a, next);
    forall k | k in temp ensures next[k] == Subst(Narrow(render, raw.Keys), raw[k], done[a := next[a]]) {
      ExactNext(render, raw, m, temp, done, a, next, k);
    }
  }

  lemma ExactStart(render: Renderer, raw: Names, m: Names)
    requires Regular(render, raw, m)
    ensures Exact(render, raw, m, raw, map[])
  {
    forall k | k in raw ensures Subst(Narrow(render, raw.Keys), raw[k], map[]) == raw[k] {
      MapTemplatesHave(raw, k);
      forall t | t in Templates(raw[k])
        ensures Rendered(Narrow(render, raw.Keys), t, map[]) == [t] && !Whole([t], map[])
      {
        Incomplete(render, raw, m, t, map[]);
      }
      SubstUntouched(Narrow(render, raw.Keys), raw[k], map[]);
    }
  }

  // ----- references, when the templates over a constant can be evaluated once it is put in -----

  ghost predicate Bare(temp: Names, done: Names) {
    && (forall k :: k in temp ==> References(temp[k]) !! done.Keys)
    && (forall k :: k in done ==> References(done[k]) !! done.Keys)
  }

  /** With the value of a, every template that names a can be evaluated. */
  ghost predicate CompletedBy(render: Renderer, temp: Names, a: Id)
    requires a in temp
  {
    forall k, t :: k in temp && t in Templates(temp[k]) && a in NamesOf(t) ==> CanEvaluate(render, t, map[a := temp[a]])
  }

  /** After the pass for a, no value names a. */
  lemma PassRemoves(render: Renderer, temp: Names, a: Id, next: Names, k: Id)
    requires Conservative(render) && a in Ready(temp) && CompletedBy(render, temp, a)
    requires Pass(render, temp, a, next) && k in temp
    ensures a !in References(next[k])
  {
    OneMapTemplates(a, temp[a]);
    forall t | t in Templates(next[k]) ensures a !in NamesOf(t) {
      ResolvedHas(render, temp[k], map[a := temp[a]], next[k], t);
      if t in Templates(temp[a]) {
        NotNamed(temp[a], t, a);
      } else if a in NamesOf(t) {
        assert t in TokenTemplates([t]);
        var n := RenderedBrings(render, t, map[a := temp[a]], t);
      }
    }
  }

  lemma BareStep(render: Renderer, raw: Names, temp: Names, done: Names, a: Id, next: Names)
    requires Conservative(render) && General(raw, temp, done) && Bare(temp, done)
    requires a in Ready(temp) && CompletedBy(render, temp, a) && Pass(render, temp, a, next)
    ensures Bare(next - {a}, done[a := next[a]])
  {
    forall k | k in temp
      ensures References(next[k]) <= References(temp[k]) + References(temp[a])
      ensures a !in References(next[k])
    {
      PassTemplates(render, temp, a, next, k);
      PassRemoves(render, temp, a, next, k);
    }
  }

  lemma SingleIsCompleted(render: Renderer, raw: Names, temp: Names, a: Id)
    requires Evaluates(render, raw) && Single(raw) && FromRaw(raw, temp) && temp.Keys <= raw.Keys && a in temp
    ensures CompletedBy(render, temp, a)
  {
    forall k, t | k in temp && t in Templates(temp[k]) && a in NamesOf(t)
      ensures CanEvaluate(render, t, map[a := temp[a]])
    {
      MapTemplatesHave(temp, k);
      OnlyName(t, raw.Keys, a);
      assert Complete(t, raw.Keys, map[a := temp[a]]);
    }
  }

  // ----- all of it together -----

  ghost predicate State(render: Renderer, raw: Names, m: Names, temp: Names, done: Names) {
    && General(raw, temp, done)
    && (Waiting(render, raw) ==> KeepsSeveral(raw, temp) && KeepsSeveral(raw, done))
    && (Regular(render, raw, m) ==> Exact(render, raw, m, temp, done))
    && (Evaluates(render, raw) && Single(raw) ==> Bare(temp, done))
  }

  lemma StateStep(render: Renderer, raw: Names, m: Names, temp: Names, done: Names, a: Id, next: Names)
    requires Conservative(render) && State(render, raw, m, temp, done) && a in Ready(temp)
            && Pass(render, temp, a, next)
    ensures State(render, raw, m, next - {a}, done[a := next[a]])
    ensures Ready(temp) - {a} <= Ready(next - {a})
  {
    GeneralStep(render, raw, temp, done, a, next);
    if Waiting(render, raw) {
      KeepsStep(render, raw, temp, done, a, next);
    }
    if Regular(render, raw, m) {
      ExactStep(render, raw, m, temp, done, a, next);
    }
    if Evaluates(render, raw) && Single(raw) {
      SingleIsCompleted(render, raw, temp, a);
      BareStep(render, raw, temp, done, a, next);
    }
  }

  lemma StateStart(render: Renderer, raw: Names, m: Names)
    ensures State(render, raw, m, raw, map[])
  {
    if Regular(render, raw, m) {
      ExactStart(render, raw, m);
    }
  }

  /** An acyclic pool always has a constant that can be put in next. */
  lemma SomeReady(raw: Names, temp: Names, done: Names)
    requires General(raw, temp, done) && !Cyclic(RefEdges(raw)) && temp.Keys != {}
    ensures Ready(temp) != {}
  {
    assert RefEdges(temp) <= RefEdges(raw);
    FewerEdgesStayAcyclic(RefEdges(temp), RefEdges(raw));
    var k := SinkExists(RefEdges(temp), temp.Keys);
    assert References(temp[k]) !! temp.Keys by {
      forall n | n in References(temp[k]) ensures n !in temp {
        assert (k, n) in RefEdges(temp) <==> n in temp;
      }
    }
    assert k in Ready(temp);
  }

  // ----- what the loops do, in whatever order the dicts are gone through -----

  /** A ready constant is put into every value left, its own included, and is done. */
  ghost predicate Step(render: Renderer, temp: Names, done: Names, a: Id, temp': Names, done': Names) {
    a in Ready(temp) && exists next :: Pass(render, temp, a, next) && temp' == next - {a} && done' == done[a := next[a]]
  }

  /** From the raw pool the constants were put in in this order. */
  ghost predicate Chain(render: Renderer, raw: Names, order: seq<Id>, temp: Names, done: Names) {
    if order == [] then temp == raw && done == map[]
    else exists before: (Names, Names) ::
      && Chain(render, raw, order[..|order| - 1], before.0, before.1)
      && Step(render, before.0, before.1, order[|order| - 1], temp, done)
  }

  /** A result of resolving the pool. */
  ghost predicate Resolved(render: Renderer, raw: Names, pool: Names) {
    exists order :: Chain(render, raw, order, map[], pool)
  }

  lemma ChainSnoc(render: Renderer, raw: Names, order: seq<Id>, temp: Names, done: Names, a: Id, temp': Names,
                  done': Names)
    requires Chain(render, raw, order, temp, done) && Step(render, temp, done, a, temp', done')
    ensures Chain(render, raw, order + [a], temp', done')
  {
    assert (order + [a])[..|order|] == order;
    var before := (temp, done);
    assert Chain(render, raw, order, before.0, before.1);
  }

  lemma {:induction false} ChainState(render: Renderer, raw: Names, m: Names, order: seq<Id>, temp: Names, done: Names)
    requires Conservative(render) && Chain(render, raw, order, temp, done)
    ensures State(render, raw, m, temp, done)
  {
    if order == [] {
      StateStart(render, raw, m);
    } else {
      var last := order[|order| - 1];
      var before: (Names, Names) :| Chain(render, raw, order[..|order| - 1], before.0, before.1)
                                    && Step(render, before.0, before.1, last, temp, done);
      ChainState(render, raw, m, order[..|order| - 1], before.0, before.1);
      var next :| Pass(render, before.0, last, next) && temp == next - {last} && done == before.1[last := next[last]];
      StateStep(render, raw, m, before.0, before.1, last, next);
    }
  }

  lemma ChainSomeReady(render: Renderer, raw: Names, order: seq<Id>, temp: Names, done: Names)
    requires Conservative(render) && Chain(render, raw, order, temp, done) && !Cyclic(RefEdges(raw)) && temp.Keys != {}
    ensures Ready(temp) != {}
  {
    ChainState(render, raw, map[], order, temp, done);
    SomeReady(raw, temp, done);
  }

  /** Putting one constant in leaves the other ready ones ready. */
  lemma StaysReady(render: Renderer, raw: Names, order: seq<Id>, temp: Names, done: Names, a: Id, temp': Names,
                   done': Names)
    requires Conservative(render) && Chain(render, raw, order, temp, done) && Step(render, temp, done, a, temp', done')
    ensures temp'.Keys == temp.Keys - {a} && Ready(temp) - {a} <= Ready(temp')
  {
    ChainState(render, raw, map[], order, temp, done);
    var next :| Pass(render, temp, a, next) && temp' == next - {a} && done' == done[a := next[a]];
    GeneralStep(render, raw, temp, done, a, next);
  }

  method GetReferencedOnly(pool: Names) returns (ready: set<Id>)
    ensures ready == Ready(pool)
  {
    ready := {};
    var todo := pool.Keys;
    while todo != {}
      invariant todo <= pool.Keys && ready == Ready(pool) - todo
      decreases |todo|
    {
      var key := Pick(todo);
      if References(pool[key]) * pool.Keys == {} {
        ready := ready + {key};
      }
      todo := todo - {key};
    }
  }

  /** The inner loop: puts the value of one constant into every value left. */
  method PutIn(render: Renderer, temp: Names, a: Id) returns (next: Names)
    requires a in temp
    ensures Pass(render, temp, a, next)
  {
    var maps := map[a := temp[a]];
    next := temp;
    var todo := temp.Keys;
    while todo != {}
      invariant todo <= temp.Keys == next.Keys
      invariant forall k :: k in todo ==> next[k] == temp[k]
      invariant forall k :: k in temp && k !in todo ==> ResolvesTo(render, temp[k], maps, next[k])
      decreases |todo|
    {
      var key := Pick(todo);
      var resolved := ResolveData(render, next[key], maps);
      next := next[key := resolved];
      todo := todo - {key};
    }
  }

  method ResolveOne(render: Renderer, temp: Names, done: Names, a: Id) returns (temp': Names, done': Names)
    requires a in Ready(temp)
    ensures Step(render, temp, done, a, temp', done')
  {
    var next := PutIn(render, temp, a);
    temp', done' := next - {a}, done[a := next[a]];
  }

  /** Those of the ready constants that are not put in yet can still be put in. */
  ghost predicate Batch(temp: Names, ready: set<Id>, todo: set<Id>, temp': Names) {
    ready <= temp.Keys && todo <= ready && todo <= Ready(temp') && temp'.Keys == temp.Keys - (ready - todo)
  }

  lemma BatchStep(temp: Names, ready: set<Id>, todo: set<Id>, temp': Names, a: Id, temp'': Names)
    requires Batch(temp, ready, todo, temp') && a in todo
    requires temp''.Keys == temp'.Keys - {a} && Ready(temp') - {a} <= Ready(temp'')
    ensures Batch(temp, ready, todo - {a}, temp'')
  {}

  /** The loop over the constants that were ready. */
  method ResolveThese(render: Renderer, ghost raw: Names, ghost order: seq<Id>, temp: Names, done: Names,
                      ready: set<Id>)
    returns (temp': Names, done': Names, ghost order': seq<Id>)
    requires Conservative(render) && Chain(render, raw, order, temp, done) && Batch(temp, ready, ready, temp)
    ensures Chain(render, raw, order', temp', done') && Batch(temp, ready, {}, temp')
  {
    var todo := ready;
    temp', done', order' := temp, done, order;
    while todo != {}
      invariant Chain(render, raw, order', temp', done') && Batch(temp, ready, todo, temp')
      decreases |todo|
    {
      var a := Pick(todo);
      var next, more := ResolveOne(render, temp', done', a);
      StaysReady(render, raw, order', temp', done', a, next, more);
      BatchStep(temp, ready, todo, temp', a, next);
      ChainSnoc(render, raw, order', temp', done', a, next, more);
      temp', done', order', todo := next, more, order' + [a], todo - {a};
    }
  }

  lemma BatchLowers(temp: Names, ready: set<Id>, temp': Names)
    requires Batch(temp, ready, {}, temp') && ready != {}
    ensures |temp'.Keys| < |temp.Keys|
  {}

  /** The whole loop: it ends on every acyclic pool. */
  method ResolveAll(render: Renderer, raw: Names) returns (pool: Names)
    requires Conservative(render) && !Cyclic(RefEdges(raw))
    ensures Resolved(render, raw, pool)
  {
    var temp := raw;
    pool := map[];
    ghost var order: seq<Id> := [];
    while temp.Keys != {}
      invariant Chain(render, raw, order, temp, pool)
      decreases |temp.Keys|
    {
      ChainSomeReady(render, raw, order, temp, pool);
      var ready := GetReferencedOnly(temp);
      ghost var before := temp;
      temp, pool, order := ResolveThese(render, raw, order, temp, pool, ready);
      BatchLowers(before, ready, temp);
    }
    assert temp == map[];
  }
}
