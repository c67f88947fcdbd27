/** pipeline/core/data/expression.py: the algebra of substituting names in templates. */
module Substitutions {
  import opened Expressions
  import opened Options
  import opened Walks

  /** Every string is a single piece, or has text in it, or has nothing in it that prints nothing at all. */
  predicate Firm(render: Renderer, v: Value, maps: Names) {
    match v
    case Str(tokens) => |tokens| <= 1 || Anchored(tokens) || NoneVanishes(render, tokens, maps)
    case Compound(_, items) => forall i :: 0 <= i < |items| ==> Firm(render, items[i], maps)
    case Atom(_) => true
  }

  predicate Anchored(tokens: seq<Token>) {
    exists t :: t in tokens && t.Text?
  }

  predicate NoneVanishes(render: Renderer, tokens: seq<Token>, maps: Names) {
    forall t :: t in tokens ==> Rendered(render, t, maps) != []
  }

  // ----- the templates of a substitution -----

  lemma {:induction false} TokensKept(render: Renderer, tokens: seq<Token>, maps: Names, t: Token)
    requires t in TokenTemplates(tokens) && Rendered(render, t, maps) == [t]
    ensures t in TokenTemplates(SubstTokens(render, tokens, maps))
  {
    TemplatesConcat(Rendered(render, tokens[0], maps), SubstTokens(render, tokens[1..], maps));
    if t != tokens[0] {
      assert t in TokenTemplates(tokens[1..]);
      TokensKept(render, tokens[1..], maps, t);
    }
  }

  /** A template that is not printed stays, unless it is a lone name. */
  lemma {:induction false} SubstKeeps(render: Renderer, v: Value, maps: Names, t: Token)
    requires t in Templates(v) && Rendered(render, t, maps) == [t] && !Whole([t], maps)
    ensures t in Templates(Subst(render, v, maps))
  {
    match v
    case Str(tokens) =>
      assert |tokens| == 1 ==> tokens == [t];
      if !Whole(tokens, maps) {
        TokensKept(render, tokens, maps, t);
      }
    case Compound(shape, items) =>
      var i :| 0 <= i < |items| && t in Templates(items[i]);
      SubstKeeps(render, items[i], maps, t);
      ItemTemplatesHave(Subst(render, v, maps).items, i);
    case Atom(_) =>
  }

  lemma ItemTemplatesHave(items: seq<Value>, i: nat)
    requires i < |items|
    ensures Templates(items[i]) <= ItemTemplates(items)
  {}

  /** The templates of a value that cannot be evaluated and are no lone name. */
  function Unprinted(render: Renderer, v: Value, maps: Names): set<Token> {
    match v
    case Str(tokens) =>
      if Whole(tokens, maps) then {} else set t | t in TokenTemplates(tokens) && !CanEvaluate(render, t, maps)
    case Compound(_, items) => set i, t | 0 <= i < |items| && t in Unprinted(render, items[i], maps) :: t
    case Atom(_) => {}
  }

  lemma {:induction false} UnprintedStay(render: Renderer, v: Value, maps: Names, t: Token)
    requires t in Unprinted(render, v, maps)
    ensures t in Templates(v) && Rendered(render, t, maps) == [t] && t in Templates(Subst(render, v, maps))
  {
    match v
    case Str(tokens) => TokensKept(render, tokens, maps, t);
    case Compound(shape, items) =>
      var i :| 0 <= i < |items| && t in Unprinted(render, items[i], maps);
      UnprintedStay(render, items[i], maps, t);
      ItemTemplatesHave(Subst(render, v, maps).items, i);
    case Atom(_) =>
  }

  /** A template of a substitution was not printed, or a name of the value brings it. */
  ghost predicate Origin(render: Renderer, v: Value, maps: Names, t: Token) {
    t in Unprinted(render, v, maps) || Brought(v, maps, t)
  }

  ghost predicate Brought(v: Value, maps: Names, t: Token) {
    exists n :: n in References(v) && n in maps && t in Templates(maps[n])
  }

  lemma BroughtWider(part: Value, v: Value, maps: Names, t: Token)
    requires Brought(part, maps, t) && Templates(part) <= Templates(v)
    ensures Brought(v, maps, t)
  {}

  lemma {:induction false} TokensOrigin(render: Renderer, tokens: seq<Token>, maps: Names, t: Token)
    requires Conservative(render) && t in TokenTemplates(SubstTokens(render, tokens, maps))
    ensures (t in TokenTemplates(tokens) && !CanEvaluate(render, t, maps)) || Brought(Str(tokens), maps, t)
  {
    var u := tokens[0];
    assert tokens == [u] + tokens[1..];
    TemplatesConcat([u], tokens[1..]);
    TemplatesConcat(Rendered(render, u, maps), SubstTokens(render, tokens[1..], maps));
    if t in TokenTemplates(Rendered(render, u, maps)) {
      if CanEvaluate(render, u, maps) {
        var n := RenderedBrings(render, u, maps, t);
        HasReference(Str(tokens), u, n);
      }
    } else {
      TokensOrigin(render, tokens[1..], maps, t);
      if Brought(Str(tokens[1..]), maps, t) {
        BroughtWider(Str(tokens[1..]), Str(tokens), maps, t);
      }
    }
  }

  lemma {:induction false} SubstOrigin(render: Renderer, v: Value, maps: Names, t: Token)
    requires Conservative(render) && t in Templates(Subst(render, v, maps))
    ensures Origin(render, v, maps, t)
  {
    match v
    case Str(tokens) =>
      if Whole(tokens, maps) {
        WholeReferences(tokens, maps);
      } else {
        TokensOrigin(render, tokens, maps, t);
      }
    case Compound(shape, items) =>
      var i :| 0 <= i < |items| && t in Templates(Subst(render, items[i], maps));
      SubstOrigin(render, items[i], maps, t);
      if Brought(items[i], maps, t) {
        ItemTemplatesHave(items, i);
        BroughtWider(items[i], v, maps, t);
      }
    case Atom(_) =>
  }

  lemma HasReference(v: Value, t: Token, n: Id)
    requires t in Templates(v) && n in NamesOf(t)
    ensures n in References(v)
  {}

  lemma WholeReferences(tokens: seq<Token>, maps: Names)
    requires Whole(tokens, maps)
    ensures tokens[0].names[0] in References(Str(tokens))
  {
    HasReference(Str(tokens), tokens[0], tokens[0].names[0]);
  }

  // ----- when substitutions agree, do nothing, or compose -----

  /** A template is treated alike by two renderings under two maps. */
  ghost predicate Agrees(render: Renderer, m: Names, render': Renderer, m': Names, t: Token) {
    && Rendered(render, t, m) == Rendered(render', t, m')
    && (Whole([t], m) <==> Whole([t], m'))
    && (Whole([t], m) ==> m[t.names[0]] == m'[t.names[0]])
  }

  /** The names that a template uses have the same values under both maps. */
  predicate SameFor(t: Token, m: Names, m': Names) {
    forall n :: n in NamesOf(t) ==> Lookup(m, n) == Lookup(m', n)
  }

  lemma SameAgrees(render: Renderer, t: Token, m: Names, m': Names)
    requires SameFor(t, m, m')
    ensures Agrees(render, m, render, m', t)
  {
    if t.Tpl? {
      forall i | 0 <= i < |t.names| ensures Args(t.names, m)[i] == Args(t.names, m')[i] {
        assert t.names[i] in NamesOf(t);
      }
      assert Args(t.names, m) == Args(t.names, m');
      if |t.names| == 1 {
        assert t.names[0] in NamesOf(t);
        assert Lookup(m, t.names[0]) == Lookup(m', t.names[0]);
      }
    }
  }

  lemma {:induction false} TokensAgree(render: Renderer, m: Names, render': Renderer, m': Names, tokens: seq<Token>)
    requires forall t :: t in TokenTemplates(tokens) ==> Agrees(render, m, render', m', t)
    ensures SubstTokens(render, tokens, m) == SubstTokens(render', tokens, m')
  {
    if tokens != [] {
      assert forall t :: t in TokenTemplates(tokens[1..]) ==> t in TokenTemplates(tokens);
      assert tokens[0].Tpl? ==> tokens[0] in TokenTemplates(tokens);
      TokensAgree(render, m, render', m', tokens[1..]);
    }
  }

  lemma WholeIsSingle(tokens: seq<Token>, maps: Names)
    ensures Whole(tokens, maps) ==> tokens == [tokens[0]] && tokens[0] in TokenTemplates(tokens)
    ensures Whole(tokens, maps) ==> NamesOf(tokens[0]) == {tokens[0].names[0]} && tokens[0].names[0] in maps
  {}

  lemma {:induction false} SubstAgrees(render: Renderer, m: Names, render': Renderer, m': Names, v: Value)
    requires forall t :: t in Templates(v) ==> Agrees(render, m, render', m', t)
    ensures Subst(render, v, m) == Subst(render', v, m')
  {
    match v
    case Str(tokens) =>
      WholeIsSingle(tokens, m);
      WholeIsSingle(tokens, m');
      TokensAgree(render, m, render', m', tokens);
    case Compound(shape, items) =>
      forall i | 0 <= i < |items| ensures Subst(render, items[i], m) == Subst(render', items[i], m') {
        ItemTemplatesHave(items, i);
        SubstAgrees(render, m, render', m', items[i]);
      }
    case Atom(_) =>
  }

  lemma {:induction false} TokensUntouched(render: Renderer, tokens: seq<Token>, maps: Names)
    requires forall t :: t in TokenTemplates(tokens) ==> Rendered(render, t, maps) == [t]
    ensures SubstTokens(render, tokens, maps) == tokens
  {
    if tokens != [] {
      assert tokens[0].Tpl? ==> tokens[0] in TokenTemplates(tokens);
      assert forall t :: t in TokenTemplates(tokens[1..]) ==> t in TokenTemplates(tokens);
      TokensUntouched(render, tokens[1..], maps);
    }
  }

  lemma {:induction false} SubstUntouched(render: Renderer, v: Value, maps: Names)
    requires forall t :: t in Templates(v) ==> Rendered(render, t, maps) == [t] && !Whole([t], maps)
    ensures Subst(render, v, maps) == v
  {
    match v
    case Str(tokens) =>
      WholeIsSingle(tokens, maps);
      TokensUntouched(render, tokens, maps);
    case Compound(shape, items) =>
      forall i | 0 <= i < |items| ensures Subst(render, items[i], maps) == items[i] {
        ItemTemplatesHave(items, i);
        SubstUntouched(render, items[i], maps);
      }
    case Atom(_) =>
  }

  // What composing needs of the constant a, newly known with value w, and the constants m known before.

  /** The new constant changes nothing in this template. */
  predicate Inert(render: Renderer, t: Token, a: Id, w: Value) {
    a !in NamesOf(t) && Rendered(render, t, map[a := w]) == [t]
  }

  ghost predicate Joins(render: Renderer, m: Names, a: Id, w: Value) {
    a !in m && forall t :: t in MapTemplates(m) ==> Inert(render, t, a, w)
  }

  /** What is printed without the new constant is printed alike with it, and what is not waits for it alone. */
  predicate Completes(render: Renderer, t: Token, m: Names, a: Id, w: Value) {
    Rendered(render, t, m[a := w]) == if Rendered(render, t, m) == [t] then Rendered(render, t, map[a := w])
                                      else Rendered(render, t, m)
  }

  lemma {:induction false} TokensConcat(render: Renderer, s: seq<Token>, t: seq<Token>, maps: Names)
    ensures SubstTokens(render, s + t, maps) == SubstTokens(render, s, maps) + SubstTokens(render, t, maps)
  {
    if s == [] {
      assert s + t == t;
    } else {
      assert (s + t)[1..] == s[1..] + t;
      TokensConcat(render, s[1..], t, maps);
    }
  }

  lemma RenderedComposes(render: Renderer, t: Token, m: Names, a: Id, w: Value)
    requires Conservative(render) && Joins(render, m, a, w) && Completes(render, t, m, a, w)
    ensures SubstTokens(render, Rendered(render, t, m), map[a := w]) == Rendered(render, t, m[a := w])
  {
    if Rendered(render, t, m) == [t] {
      SingletonTokens(render, t, map[a := w]);
    } else {
      RenderedTemplates(render, t, m);
      TokensUntouched(render, Rendered(render, t, m), map[a := w]);
    }
  }

  ghost predicate AllComplete(render: Renderer, tokens: seq<Token>, m: Names, a: Id, w: Value) {
    forall t :: t in TokenTemplates(tokens) ==> Completes(render, t, m, a, w)
  }

  lemma {:induction false} TokensCompose(render: Renderer, tokens: seq<Token>, m: Names, a: Id, w: Value)
    requires Conservative(render) && Joins(render, m, a, w) && AllComplete(render, tokens, m, a, w)
    ensures SubstTokens(render, SubstTokens(render, tokens, m), map[a := w]) == SubstTokens(render, tokens, m[a := w])
  {
    if tokens != [] {
      assert tokens[0].Tpl? ==> tokens[0] in TokenTemplates(tokens);
      assert forall t :: t in TokenTemplates(tokens[1..]) ==> t in TokenTemplates(tokens);
      RenderedComposes(render, tokens[0], m, a, w);
      TokensConcat(render, Rendered(render, tokens[0], m), SubstTokens(render, tokens[1..], m), map[a := w]);
      TokensCompose(render, tokens[1..], m, a, w);
    }
  }

  lemma {:induction false} TextStays(render: Renderer, tokens: seq<Token>, m: Names, t: Token)
    requires t in tokens && t.Text?
    ensures t in SubstTokens(render, tokens, m)
  {
    if t != tokens[0] {
      TextStays(render, tokens[1..], m, t);
    }
  }

  lemma {:induction false} LengthStays(render: Renderer, tokens: seq<Token>, m: Names)
    requires NoneVanishes(render, tokens, m)
    ensures |SubstTokens(render, tokens, m)| >= |tokens|
  {
    if tokens != [] {
      assert tokens[0] in tokens && forall t :: t in tokens[1..] ==> t in tokens;
      LengthStays(render, tokens[1..], m);
    }
  }

  /** A firm string of several pieces never becomes a lone name. */
  lemma FirmIsNotWhole(render: Renderer, tokens: seq<Token>, m: Names, maps: Names)
    requires |tokens| != 1 || !tokens[0].Tpl?
    requires Firm(render, Str(tokens), m)
    ensures !Whole(SubstTokens(render, tokens, m), maps) && !Whole(tokens, maps)
  {
    if |tokens| <= 1 || Anchored(tokens) {
      if tokens != [] {
        assert |tokens| == 1 ==> tokens[0] in tokens;
        var t :| t in tokens && t.Text?;
        TextStays(render, tokens, m, t);
      }
    } else {
      LengthStays(render, tokens, m);
    }
  }

  lemma SingletonTokens(render: Renderer, t: Token, maps: Names)
    ensures SubstTokens(render, [t], maps) == Rendered(render, t, maps)
  {}

  /** One template by itself. */
  lemma SingletonComposes(render: Renderer, t: Token, m: Names, a: Id, w: Value)
    requires Conservative(render) && Joins(render, m, a, w) && Completes(render, t, m, a, w)
    requires t.Tpl? && (Rendered(render, t, m) == [t] || a !in NamesOf(t))
    ensures Subst(render, Subst(render, Str([t]), m), map[a := w]) == Subst(render, Str([t]), m[a := w])
  {
    SingletonTokens(render, t, m);
    SingletonTokens(render, t, m[a := w]);
    WholeIsSingle([t], m[a := w]);
    if Whole([t], m) {
      MapTemplatesHave(m, t.names[0]);
      InertUntouched(render, m[t.names[0]], a, w);
    } else {
      RenderedComposes(render, t, m, a, w);
      if Rendered(render, t, m) == [t] {
        assert Whole([t], map[a := w]) <==> Whole([t], m[a := w]);
      } else {
        RenderedNotWhole(render, t, m, a, w);
      }
    }
  }

  lemma InertUntouched(render: Renderer, v: Value, a: Id, w: Value)
    requires forall t :: t in Templates(v) ==> Inert(render, t, a, w)
    ensures Subst(render, v, map[a := w]) == v
  {
    forall t | t in Templates(v) ensures !Whole([t], map[a := w]) {
      WholeIsSingle([t], map[a := w]);
    }
    SubstUntouched(render, v, map[a := w]);
  }

  lemma RenderedNotWhole(render: Renderer, t: Token, m: Names, a: Id, w: Value)
    requires Conservative(render) && Joins(render, m, a, w) && Rendered(render, t, m) != [t]
    ensures !Whole(Rendered(render, t, m), map[a := w])
  {
    RenderedTemplates(render, t, m);
    WholeIsSingle(Rendered(render, t, m), map[a := w]);
  }

  /** Substituting a after the others is substituting all at once. */
  lemma {:induction false} Compose(render: Renderer, v: Value, m: Names, a: Id, w: Value)
    requires Conservative(render) && Joins(render, m, a, w) && Firm(render, v, m)
    requires forall t :: t in Templates(v) ==> Completes(render, t, m, a, w)
    requires forall t :: t in Templates(v) ==> Rendered(render, t, m) == [t] || a !in NamesOf(t)
    ensures Subst(render, Subst(render, v, m), map[a := w]) == Subst(render, v, m[a := w])
  {
    match v
    case Str(tokens) =>
      if |tokens| == 1 && tokens[0].Tpl? {
        assert tokens[0] in TokenTemplates(tokens) && tokens == [tokens[0]];
        SingletonComposes(render, tokens[0], m, a, w);
      } else {
        FirmIsNotWhole(render, tokens, m, map[a := w]);
        FirmIsNotWhole(render, tokens, m, m[a := w]);
        FirmIsNotWhole(render, tokens, m, m);
        TokensCompose(render, tokens, m, a, w);
      }
    case Compound(shape, items) =>
      forall i | 0 <= i < |items|
        ensures Subst(render, Subst(render, items[i], m), map[a := w]) == Subst(render, items[i], m[a := w])
      {
        ItemTemplatesHave(items, i);
        Compose(render, items[i], m, a, w);
      }
    case Atom(_) =>
  }
}
