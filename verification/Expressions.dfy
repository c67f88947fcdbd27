/** pipeline/core/data/expression.py: values with templates in them, and the substitution of names. */
module Expressions {
  import opened Options
  import opened Walks

  /** A piece of a string: text without templates, or a template with the names it uses. */
  datatype Token = Text(id: Id) | Tpl(names: seq<Id>, shape: Id)

  /** A string, a list, tuple or dict of values, or any other value. */
  datatype Value = Str(tokens: seq<Token>) | Compound(shape: Id, items: seq<Value>) | Atom(id: Id)

  type Names = map<Id, Value>

  /** What a template prints when its names have these values; None when it cannot be evaluated. A name without
      a value stands for a builtin or an undefined value: whether that can be evaluated is up to the template. */
  type Renderer = (Token, seq<Option<Value>>) -> Option<seq<Token>>

  /** The shape of a template that is only a name. */
  const PLAIN: Id := 0

  // ----- the templates of a value -----

  function TokenTemplates(tokens: seq<Token>): set<Token> {
    set t | t in tokens && t.Tpl?
  }

  function Templates(v: Value): set<Token> {
    match v
    case Str(tokens) => TokenTemplates(tokens)
    case Compound(_, items) => ItemTemplates(items)
    case Atom(_) => {}
  }

  function ItemTemplates(items: seq<Value>): set<Token> {
    set i, t | 0 <= i < |items| && t in Templates(items[i]) :: t
  }

  function References(v: Value): set<Id> {
    set t, n | t in Templates(v) && n in NamesOf(t) :: n
  }

  function NamesOf(t: Token): set<Id> {
    if t.Tpl? then Elements(t.names) else {}
  }

  function ArgTemplates(args: seq<Option<Value>>): set<Token> {
    set i, t | 0 <= i < |args| && args[i].Some? && t in Templates(args[i].value) :: t
  }

  /** Rendering makes no new template: what it prints comes from the values. */
  ghost predicate Conservative(render: Renderer) {
    forall t, args :: render(t, args).Some? ==> TokenTemplates(render(t, args).value) <= ArgTemplates(args)
  }

  // ----- rendering one template -----

  function Lookup(maps: Names, n: Id): Option<Value> {
    if n in maps then Some(maps[n]) else None
  }

  function Args(names: seq<Id>, maps: Names): seq<Option<Value>> {
    seq(|names|, i requires 0 <= i < |names| => Lookup(maps, names[i]))
  }

  predicate CanEvaluate(render: Renderer, t: Token, maps: Names) {
    t.Tpl? && render(t, Args(t.names, maps)).Some?
  }

  /** resolve_template: what the template prints, or the template itself when it cannot be evaluated. */
  function Rendered(render: Renderer, t: Token, maps: Names): seq<Token> {
    if CanEvaluate(render, t, maps) then render(t, Args(t.names, maps)).value else [t]
  }

  /** The templates of the mapped values. */
  function MapTemplates(maps: Names): set<Token> {
    set n, t | n in maps && t in Templates(maps[n]) :: t
  }

  lemma MapTemplatesHave(maps: Names, n: Id)
    requires n in maps
    ensures Templates(maps[n]) <= MapTemplates(maps)
  {}

  /** A template that is printed comes with the value of one of the names. */
  lemma RenderedBrings(render: Renderer, u: Token, maps: Names, t: Token) returns (n: Id)
    requires Conservative(render) && CanEvaluate(render, u, maps)
    requires t in TokenTemplates(Rendered(render, u, maps))
    ensures n in NamesOf(u) && n in maps && t in Templates(maps[n])
  {
    var args := Args(u.names, maps);
    assert t in ArgTemplates(args);
    var i :| 0 <= i < |args| && args[i].Some? && t in Templates(args[i].value);
    n := u.names[i];
    assert n in Elements(u.names);
  }

  lemma RenderedTemplates(render: Renderer, t: Token, maps: Names)
    requires Conservative(render)
    ensures Rendered(render, t, maps) == [t] || TokenTemplates(Rendered(render, t, maps)) <= MapTemplates(maps)
  {
    if CanEvaluate(render, t, maps) {
      forall u | u in TokenTemplates(Rendered(render, t, maps)) ensures u in MapTemplates(maps) {
        var n := RenderedBrings(render, t, maps, u);
        MapTemplatesHave(maps, n);
      }
    }
  }

  // ----- substitution: what resolve_data is meant to compute -----

  function SubstTokens(render: Renderer, tokens: seq<Token>, maps: Names): seq<Token> {
    if tokens == [] then [] else Rendered(render, tokens[0], maps) + SubstTokens(render, tokens[1..], maps)
  }

  /** The whole string is one name that the map knows. */
  predicate Whole(tokens: seq<Token>, maps: Names) {
    |tokens| == 1 && tokens[0].Tpl? && tokens[0].shape == PLAIN && |tokens[0].names| == 1 && tokens[0].names[0] in maps
  }

  function Subst(render: Renderer, v: Value, maps: Names): Value {
    match v
    case Str(tokens) =>
      if Whole(tokens, maps) then maps[tokens[0].names[0]] else Str(SubstTokens(render, tokens, maps))
    case Compound(shape, items) =>
      Compound(shape, seq(|items|, i requires 0 <= i < |items| => Subst(render, items[i], maps)))
    case Atom(_) => v
  }

  // ----- resolve_string: one template at a time, in any order -----

  /** string.replace. */
  function Replace(tokens: seq<Token>, t: Token, out: seq<Token>): seq<Token> {
    if tokens == [] then [] else (if tokens[0] == t then out else [tokens[0]]) + Replace(tokens[1..], t, out)
  }

  function ReplaceAll(render: Renderer, tokens: seq<Token>, order: seq<Token>, maps: Names): seq<Token> {
    if order == [] then tokens else
    var last := order[|order| - 1];
    Replace(ReplaceAll(render, tokens, order[..|order| - 1], maps), last, Rendered(render, last, maps))
  }

  /** What resolve_data may return, whatever the order in which the templates of a string are replaced. */
  ghost predicate ResolvesTo(render: Renderer, v: Value, maps: Names, r: Value) {
    match v
    case Str(tokens) =>
      if Whole(tokens, maps) then r == maps[tokens[0].names[0]]
      else r.Str? && exists order :: IsResolvedIn(render, tokens, order, maps, r.tokens)
    case Compound(shape, items) =>
      && r.Compound? && r.shape == shape && |r.items| == |items|
      && forall i :: 0 <= i < |items| ==> ResolvesTo(render, items[i], maps, r.items[i])
    case Atom(_) => r == v
  }

  ghost predicate IsResolvedIn(render: Renderer, tokens: seq<Token>, order: seq<Token>, maps: Names, r: seq<Token>) {
    Distinct(order) && Elements(order) == TokenTemplates(tokens) && r == ReplaceAll(render, tokens, order, maps)
  }

  /** Some of the templates have been replaced, in this order. */
  ghost predicate Replacing(render: Renderer, tokens: seq<Token>, order: seq<Token>, todo: set<Token>, maps: Names,
                            r: seq<Token>)
  {
    && Distinct(order) && Elements(order) !! todo
    && Elements(order) + todo == TokenTemplates(tokens)
    && r == ReplaceAll(render, tokens, order, maps)
  }

  lemma ReplacingStart(render: Renderer, tokens: seq<Token>, maps: Names)
    ensures Replacing(render, tokens, [], TokenTemplates(tokens), maps, tokens)
  {}

  lemma ReplacingStep(render: Renderer, tokens: seq<Token>, order: seq<Token>, todo: set<Token>, maps: Names,
                      r: seq<Token>, t: Token)
    requires Replacing(render, tokens, order, todo, maps, r) && t in todo
    ensures Replacing(render, tokens, order + [t], todo - {t}, maps, Replace(r, t, Rendered(render, t, maps)))
  {
    DistinctSnoc(order, t);
    ElementsSnoc(order, t);
    assert (order + [t])[..|order|] == order;
  }

  method ResolveString(render: Renderer, tokens: seq<Token>, maps: Names) returns (r: seq<Token>)
    ensures exists order :: IsResolvedIn(render, tokens, order, maps, r)
  {
    r := tokens;
    var todo := TokenTemplates(tokens);
    ghost var order: seq<Token> := [];
    ReplacingStart(render, tokens, maps);
    while todo != {}
      invariant Replacing(render, tokens, order, todo, maps, r)
      decreases |todo|
    {
      var t := Pick(todo);
      ReplacingStep(render, tokens, order, todo, maps, r, t);
      r, todo, order := Replace(r, t, Rendered(render, t, maps)), todo - {t}, order + [t];
    }
    assert IsResolvedIn(render, tokens, order, maps, r);
  }

  method ResolveData(render: Renderer, v: Value, maps: Names) returns (r: Value)
    ensures ResolvesTo(render, v, maps, r)
    decreases v
  {
    match v
    case Str(tokens) =>
      if Whole(tokens, maps) {
        return maps[tokens[0].names[0]];
      }
      var resolved := ResolveString(render, tokens, maps);
      return Str(resolved);
    case Compound(shape, items) =>
      var resolved: seq<Value> := [];
      for i := 0 to |items|
        invariant |resolved| == i
        invariant forall k :: 0 <= k < i ==> ResolvesTo(render, items[k], maps, resolved[k])
      {
        var item := ResolveData(render, items[i], maps);
        resolved := resolved + [item];
      }
      return Compound(shape, resolved);
    case Atom(_) => return v;
  }

  // ----- one at a time is all at once, when no value prints a template that would be replaced -----

  /** No mapped value holds a template that these names could change. */
  ghost predicate Settled(render: Renderer, maps: Names) {
    forall t :: t in MapTemplates(maps) ==> Rendered(render, t, maps) == [t]
  }

  /** The substitution of the templates in `done` only. */
  function SubstSome(render: Renderer, tokens: seq<Token>, done: set<Token>, maps: Names): seq<Token> {
    if tokens == [] then [] else
    (if tokens[0] in done then Rendered(render, tokens[0], maps) else [tokens[0]])
    + SubstSome(render, tokens[1..], done, maps)
  }

  lemma {:induction false} ReplaceConcat(a: seq<Token>, b: seq<Token>, t: Token, out: seq<Token>)
    ensures Replace(a + b, t, out) == Replace(a, t, out) + Replace(b, t, out)
  {
    if a == [] {
      assert a + b == b;
    } else {
      assert (a + b)[1..] == a[1..] + b;
      ReplaceConcat(a[1..], b, t, out);
    }
  }

  lemma {:induction false} ReplaceAbsent(tokens: seq<Token>, t: Token, out: seq<Token>)
    requires t !in tokens || out == [t]
    ensures Replace(tokens, t, out) == tokens
  {
    if tokens != [] {
      ReplaceAbsent(tokens[1..], t, out);
    }
  }

  /** A further replacement leaves what was rendered alone. */
  lemma RenderedIsFinal(render: Renderer, u: Token, t: Token, maps: Names)
    requires Conservative(render) && Settled(render, maps) && t.Tpl? && u != t
    ensures Replace(Rendered(render, u, maps), t, Rendered(render, t, maps)) == Rendered(render, u, maps)
  {
    RenderedTemplates(render, u, maps);
    var out := Rendered(render, u, maps);
    if t in out {
      assert t in TokenTemplates(out);
    }
    ReplaceAbsent(out, t, Rendered(render, t, maps));
  }

  lemma {:induction false} ReplaceOneMore(render: Renderer, tokens: seq<Token>, done: set<Token>, t: Token, maps: Names)
    requires Conservative(render) && Settled(render, maps) && t.Tpl? && t !in done
    ensures Replace(SubstSome(render, tokens, done, maps), t, Rendered(render, t, maps))
         == SubstSome(render, tokens, done + {t}, maps)
  {
    if tokens != [] {
      var u := tokens[0];
      var head := if u in done then Rendered(render, u, maps) else [u];
      ReplaceConcat(head, SubstSome(render, tokens[1..], done, maps), t, Rendered(render, t, maps));
      ReplaceOneMore(render, tokens[1..], done, t, maps);
      if u in done {
        RenderedIsFinal(render, u, t, maps);
      } else {
        assert Replace([u], t, Rendered(render, t, maps)) == if u == t then Rendered(render, t, maps) else [u];
      }
    }
  }

  lemma {:induction false} SubstNone(render: Renderer, tokens: seq<Token>, maps: Names)
    ensures SubstSome(render, tokens, {}, maps) == tokens
  {
    if tokens != [] {
      SubstNone(render, tokens[1..], maps);
    }
  }

  lemma {:induction false} SubstAll(render: Renderer, tokens: seq<Token>, done: set<Token>, maps: Names)
    requires TokenTemplates(tokens) <= done
    ensures SubstSome(render, tokens, done, maps) == SubstTokens(render, tokens, maps)
  {
    if tokens != [] {
      assert tokens[0] in tokens && forall t :: t in tokens[1..] ==> t in tokens;
      SubstAll(render, tokens[1..], done, maps);
    }
  }

  lemma {:induction false} ReplaceAllIsSubst(render: Renderer, tokens: seq<Token>, order: seq<Token>, maps: Names)
    requires Conservative(render) && Settled(render, maps) && Distinct(order) && forall t :: t in order ==> t.Tpl?
    ensures ReplaceAll(render, tokens, order, maps) == SubstSome(render, tokens, Elements(order), maps)
  {
    if order == [] {
      assert Elements(order) == {};
      SubstNone(render, tokens, maps);
    } else {
      var rest, last := order[..|order| - 1], order[|order| - 1];
      assert order == rest + [last];
      DistinctSnoc(rest, last);
      ElementsSnoc(rest, last);
      ReplaceAllIsSubst(render, tokens, rest, maps);
      ReplaceOneMore(render, tokens, Elements(rest), last, maps);
    }
  }

  /** Then resolve_data computes the substitution, whatever the order. */
  lemma {:induction false} ResolvedIsSubst(render: Renderer, v: Value, maps: Names, r: Value)
    requires Conservative(render) && Settled(render, maps) && ResolvesTo(render, v, maps, r)
    ensures r == Subst(render, v, maps)
  {
    match v
    case Str(tokens) =>
      if !Whole(tokens, maps) {
        var order: seq<Token> :| IsResolvedIn(render, tokens, order, maps, r.tokens);
        forall t | t in order ensures t.Tpl? {
          assert t in Elements(order);
        }
        ReplaceAllIsSubst(render, tokens, order, maps);
        SubstAll(render, tokens, Elements(order), maps);
      }
    case Compound(shape, items) =>
      forall i | 0 <= i < |items| ensures r.items[i] == Subst(render, items[i], maps) {
        ResolvedIsSubst(render, items[i], maps, r.items[i]);
      }
    case Atom(_) =>
  }

  // ----- what a resolution does to the templates of a value, in any case -----

  lemma TemplatesConcat(a: seq<Token>, b: seq<Token>)
    ensures TokenTemplates(a + b) == TokenTemplates(a) + TokenTemplates(b)
  {}

  lemma {:induction false} ReplaceTemplates(tokens: seq<Token>, t: Token, out: seq<Token>)
    ensures TokenTemplates(Replace(tokens, t, out)) <= (TokenTemplates(tokens) - {t}) + TokenTemplates(out)
    ensures TokenTemplates(tokens) - {t} <= TokenTemplates(Replace(tokens, t, out))
    ensures t in tokens ==> TokenTemplates(out) <= TokenTemplates(Replace(tokens, t, out))
  {
    if tokens != [] {
      ReplaceTemplates(tokens[1..], t, out);
      assert tokens == [tokens[0]] + tokens[1..];
      TemplatesConcat([tokens[0]], tokens[1..]);
      TemplatesConcat(if tokens[0] == t then out else [tokens[0]], Replace(tokens[1..], t, out));
    }
  }

  /** Templates that the names cannot change stay. */
  lemma {:induction false} UntouchedStay(render: Renderer, tokens: seq<Token>, order: seq<Token>, maps: Names, t: Token)
    requires t in TokenTemplates(tokens) && Rendered(render, t, maps) == [t]
    ensures t in TokenTemplates(ReplaceAll(render, tokens, order, maps))
  {
    if order != [] {
      var rest, last := order[..|order| - 1], order[|order| - 1];
      UntouchedStay(render, tokens, rest, maps, t);
      ReplaceTemplates(ReplaceAll(render, tokens, rest, maps), last, Rendered(render, last, maps));
    }
  }

  /** The others go, save those that the values bring. */
  lemma OneGoes(render: Renderer, tokens: seq<Token>, u: Token, maps: Names, t: Token)
    requires Conservative(render) && t in TokenTemplates(Replace(tokens, u, Rendered(render, u, maps)))
    ensures t in MapTemplates(maps) || (t in TokenTemplates(tokens) && (t == u ==> Rendered(render, t, maps) == [t]))
  {
    RenderedTemplates(render, u, maps);
    if Rendered(render, u, maps) == [u] {
      ReplaceAbsent(tokens, u, [u]);
    } else {
      ReplaceTemplates(tokens, u, Rendered(render, u, maps));
    }
  }

  lemma {:induction false} OthersGo(render: Renderer, tokens: seq<Token>, order: seq<Token>, maps: Names, t: Token)
    requires Conservative(render) && t in TokenTemplates(ReplaceAll(render, tokens, order, maps))
    ensures || t in MapTemplates(maps)
            || (t in TokenTemplates(tokens) && (t in order ==> Rendered(render, t, maps) == [t]))
  {
    if order != [] {
      var rest, last := order[..|order| - 1], order[|order| - 1];
      assert order == rest + [last];
      OneGoes(render, ReplaceAll(render, tokens, rest, maps), last, maps, t);
      if t !in MapTemplates(maps) {
        OthersGo(render, tokens, rest, maps, t);
      }
    }
  }

  /** A template that is not printed stays, unless it is a lone name, which is replaced by the value itself. */
  lemma {:induction false} ResolvedKeeps(render: Renderer, v: Value, maps: Names, r: Value, t: Token)
    requires ResolvesTo(render, v, maps, r) && t in Templates(v)
    requires Rendered(render, t, maps) == [t] && !Whole([t], maps)
    ensures t in Templates(r)
  {
    match v
    case Str(tokens) =>
      assert |tokens| == 1 ==> tokens == [t];
      if !Whole(tokens, maps) {
        var order: seq<Token> :| IsResolvedIn(render, tokens, order, maps, r.tokens);
        UntouchedStay(render, tokens, order, maps, t);
      }
    case Compound(shape, items) =>
      var i :| 0 <= i < |items| && t in Templates(items[i]);
      ResolvedKeeps(render, items[i], maps, r.items[i], t);
    case Atom(_) =>
  }

  lemma {:induction false} ResolvedHas(render: Renderer, v: Value, maps: Names, r: Value, t: Token)
    requires Conservative(render) && ResolvesTo(render, v, maps, r) && t in Templates(r)
    ensures t in MapTemplates(maps) || (t in Templates(v) && Rendered(render, t, maps) == [t])
  {
    match v
    case Str(tokens) =>
      if !Whole(tokens, maps) {
        var order: seq<Token> :| IsResolvedIn(render, tokens, order, maps, r.tokens);
        OthersGo(render, tokens, order, maps, t);
        assert t in TokenTemplates(tokens) ==> t in Elements(order) && t in order;
      } else {
        MapTemplatesHave(maps, tokens[0].names[0]);
      }
    case Compound(shape, items) =>
      var i :| 0 <= i < |r.items| && t in Templates(r.items[i]);
      ResolvedHas(render, items[i], maps, r.items[i], t);
    case Atom(_) =>
  }
}
