/** pipeline/component_framework/constant.py: pools whose resolution depends on the order of a dict. */
module ConstantOrders {
  import opened ConstantLaws
  import opened ConstantPools
  import opened Expressions
  import opened Meanings
  import opened Options
  import opened Substitutions
  import opened Walks

  lemma SomeOrder(s: set<Token>) returns (order: seq<Token>)
    ensures Distinct(order) && Elements(order) == s
  {
    if s == {} {
      order := [];
      assert Elements<Token>([]) == {};
    } else {
      var t :| t in s;
      var rest := SomeOrder(s - {t});
      order := rest + [t];
      DistinctSnoc(rest, t);
      ElementsSnoc(rest, t);
    }
  }

  /** The substitution is one of the results when the values hold no templates. */
  lemma {:induction false} SubstResolves(render: Renderer, v: Value, maps: Names)
    requires Conservative(render) && MapTemplates(maps) == {}
    ensures ResolvesTo(render, v, maps, Subst(render, v, maps))
  {
    match v
    case Str(tokens) =>
      var order := SomeOrder(TokenTemplates(tokens));
      forall t | t in order ensures t.Tpl? {
        assert t in Elements(order);
      }
      ReplaceAllIsSubst(render, tokens, order, maps);
      SubstAll(render, tokens, Elements(order), maps);
      assert IsResolvedIn(render, tokens, order, maps, SubstTokens(render, tokens, maps));
    case Compound(_, items) =>
      forall i | 0 <= i < |items| ensures ResolvesTo(render, items[i], maps, Subst(render, items[i], maps)) {
        SubstResolves(render, items[i], maps);
      }
    case Atom(_) =>
  }

  /** Putting in a value without templates substitutes it everywhere. */
  lemma StepTo(render: Renderer, temp: Names, done: Names, a: Id, temp': Names, done': Names)
    requires Conservative(render) && a in temp && Templates(temp[a]) == {}
    requires temp'.Keys == temp.Keys - {a} && done' == done[a := temp[a]]
    requires forall k :: k in temp' ==> temp'[k] == Subst(render, temp[k], map[a := temp[a]])
    ensures Step(render, temp, done, a, temp', done')
  {
    OneMapTemplates(a, temp[a]);
    var next := map k | k in temp :: Subst(render, temp[k], map[a := temp[a]]);
    forall k | k in temp ensures ResolvesTo(render, temp[k], map[a := temp[a]], next[k]) {
      SubstResolves(render, temp[k], map[a := temp[a]]);
    }
    SubstUntouched(render, temp[a], map[a := temp[a]]);
    assert next[a] == temp[a] && Pass(render, temp, a, next);
    assert (next - {a}).Keys == temp'.Keys;
    forall k | k in temp' ensures (next - {a})[k] == temp'[k] {
      assert k in temp;
    }
    assert next - {a} == temp';
  }

  /** A template of one name, under a map of one name. */
  lemma RenderedOne(render: Renderer, t: Token, n: Id, m: Id, v: Value)
    requires t.Tpl? && t.names == [n]
    ensures var out := render(t, [if m == n then Some(v) else None]);
            Rendered(render, t, map[m := v]) == if out.Some? then out.value else [t]
  {
    assert Args([n], map[m := v]) == [if m == n then Some(v) else None];
  }

  /** Three constants put in one after the other. */
  lemma ThreeSteps(render: Renderer, raw: Names, order: seq<Id>, t1: Names, d1: Names, t2: Names, d2: Names, d3: Names)
    requires |order| == 3 && Step(render, raw, map[], order[0], t1, d1)
    requires Step(render, t1, d1, order[1], t2, d2) && Step(render, t2, d2, order[2], map[], d3)
    ensures Resolved(render, raw, d3)
  {
    ChainSnoc(render, raw, [], raw, map[], order[0], t1, d1);
    ChainSnoc(render, raw, [order[0]], t1, d1, order[1], t2, d2);
    ChainSnoc(render, raw, [order[0]] + [order[1]], t2, d2, order[2], map[], d3);
  }

  function NameOf(n: Id): Token {
    Tpl([n], PLAIN)
  }

  lemma OneToken(render: Renderer, t: Token, maps: Names)
    requires !Whole([t], maps)
    ensures Subst(render, Str([t]), maps) == Str(Rendered(render, t, maps))
  {
    SingletonTokens(render, t, maps);
  }

  lemma TwoTokens(render: Renderer, s: Token, t: Token, maps: Names)
    ensures Subst(render, Str([s, t]), maps) == Str(Rendered(render, s, maps) + Rendered(render, t, maps))
  {
    assert [s, t][1..] == [t];
    SingletonTokens(render, t, maps);
  }

  // ----- an empty string beside a list -----

  const EMPTY_TEXT := Str([])
  const LIST := Compound(0, [])

  /** `${a}${b}`, where a is the empty string and b a list. */
  const JOINED: Names := map[A := EMPTY_TEXT, B := LIST, C := Str([NameOf(A), NameOf(B)])]

  /** An empty string prints as nothing, a list somehow, and an undefined name not at all. */
  ghost predicate PrintsPlainly(render: Renderer, printout: Token) {
    && render(NameOf(A), [Some(EMPTY_TEXT)]) == Some([]) && render(NameOf(A), [None]) == None
    && render(NameOf(B), [Some(LIST)]) == Some([printout]) && render(NameOf(B), [None]) == None
    && printout.Text?
  }

  lemma EmptyTextFirst(render: Renderer, printout: Token)
    requires PrintsPlainly(render, printout)
    ensures Subst(render, JOINED[C], map[A := EMPTY_TEXT]) == Str([NameOf(B)])
  {
    TwoTokens(render, NameOf(A), NameOf(B), map[A := EMPTY_TEXT]);
    RenderedOne(render, NameOf(A), A, A, EMPTY_TEXT);
    RenderedOne(render, NameOf(B), B, A, EMPTY_TEXT);
  }

  lemma ListFirst(render: Renderer, printout: Token)
    requires PrintsPlainly(render, printout)
    ensures Subst(render, JOINED[C], map[B := LIST]) == Str([NameOf(A), printout])
  {
    TwoTokens(render, NameOf(A), NameOf(B), map[B := LIST]);
    RenderedOne(render, NameOf(A), A, B, LIST);
    RenderedOne(render, NameOf(B), B, B, LIST);
  }

  lemma EmptyTextSecond(render: Renderer, printout: Token)
    requires PrintsPlainly(render, printout)
    ensures Subst(render, Str([NameOf(A), printout]), map[A := EMPTY_TEXT]) == Str([printout])
  {
    TwoTokens(render, NameOf(A), printout, map[A := EMPTY_TEXT]);
    RenderedOne(render, NameOf(A), A, A, EMPTY_TEXT);
  }

  /** Empty string first: what is left is the lone name of the list, so the result is the list. */
  lemma JoinedIsList(render: Renderer, printout: Token)
    requires Conservative(render) && PrintsPlainly(render, printout)
    ensures Resolved(render, JOINED, map[A := EMPTY_TEXT, B := LIST, C := LIST])
  {
    var t1: Names, t2: Names := map[B := LIST, C := Str([NameOf(B)])], map[C := LIST];
    EmptyTextFirst(render, printout);
    StepTo(render, JOINED, map[], A, t1, map[A := EMPTY_TEXT]);
    StepTo(render, t1, map[A := EMPTY_TEXT], B, t2, map[A := EMPTY_TEXT, B := LIST]);
    StepTo(render, t2, map[A := EMPTY_TEXT, B := LIST], C, map[], map[A := EMPTY_TEXT, B := LIST, C := LIST]);
    ThreeSteps(render, JOINED, [A, B, C], t1, map[A := EMPTY_TEXT], t2, map[A := EMPTY_TEXT, B := LIST],
               map[A := EMPTY_TEXT, B := LIST, C := LIST]);
  }

  /** List first: the result is the list's printout. */
  lemma JoinedIsText(render: Renderer, printout: Token)
    requires Conservative(render) && PrintsPlainly(render, printout)
    ensures Resolved(render, JOINED, map[B := LIST, A := EMPTY_TEXT, C := Str([printout])])
  {
    var t1: Names, t2: Names := map[A := EMPTY_TEXT, C := Str([NameOf(A), printout])], map[C := Str([printout])];
    ListFirst(render, printout);
    EmptyTextSecond(render, printout);
    StepTo(render, JOINED, map[], B, t1, map[B := LIST]);
    StepTo(render, t1, map[B := LIST], A, t2, map[B := LIST, A := EMPTY_TEXT]);
    StepTo(render, t2, map[B := LIST, A := EMPTY_TEXT], C, map[],
           map[B := LIST, A := EMPTY_TEXT, C := Str([printout])]);
    ThreeSteps(render, JOINED, [B, A, C], t1, map[B := LIST], t2, map[B := LIST, A := EMPTY_TEXT],
               map[B := LIST, A := EMPTY_TEXT, C := Str([printout])]);
  }

  // ----- a template without names -----

  const NAMELESS := Tpl([], 5)
  const USE := Tpl([A], 6)
  const TEXT := Str([Text(12)])

  /** `${1+2}`, a text, and an expression over the first: it sees `${1+2}` or its rendering. */
  const RENDERED_LATE: Names := map[A := Str([NAMELESS]), B := TEXT, C := Str([USE])]

  lemma NamelessRenders(render: Renderer, maps: Names)
    requires render(NAMELESS, []).Some?
    ensures Rendered(render, NAMELESS, maps) == render(NAMELESS, []).value
    ensures !Whole([NAMELESS], maps)
  {
    assert NamesOf(NAMELESS) == {};
    assert Args([], maps) == [];
  }

  lemma OneTokenResolves(render: Renderer, t: Token, maps: Names)
    requires !Whole([t], maps) && t.Tpl?
    ensures ResolvesTo(render, Str([t]), maps, Str(Rendered(render, t, maps)))
  {
    var out := Rendered(render, t, maps);
    assert Elements([t]) == {t} == TokenTemplates([t]);
    assert [t][..0] == [];
    assert Replace([t], t, out) == out + Replace([t][1..], t, out) == out;
    assert ReplaceAll(render, [t], [t], maps) == Replace([t], t, out);
    assert IsResolvedIn(render, [t], [t], maps, out);
  }

  lemma NamelessPass(render: Renderer, three: Token, early: Token)
    requires render(NAMELESS, []) == Some([three]) && render(USE, [Some(Str([NAMELESS]))]) == Some([early])
    ensures Pass(render, RENDERED_LATE, A, map[A := Str([three]), B := TEXT, C := Str([early])])
  {
    var maps: Names := map[A := RENDERED_LATE[A]];
    NamelessRenders(render, maps);
    RenderedOne(render, USE, A, A, Str([NAMELESS]));
    OneTokenResolves(render, NAMELESS, maps);
    OneTokenResolves(render, USE, maps);
    PlainResolves(render, TEXT, maps);
  }

  /** The first constant goes in before it is rendered itself. */
  lemma NamelessFirst(render: Renderer, three: Token, early: Token)
    requires Conservative(render) && render(NAMELESS, []) == Some([three])
            && render(USE, [Some(Str([NAMELESS]))]) == Some([early])
    ensures Step(render, RENDERED_LATE, map[], A, map[B := TEXT, C := Str([early])], map[A := Str([three])])
  {
    var next: Names := map[A := Str([three]), B := TEXT, C := Str([early])];
    NamelessPass(render, three, early);
    assert next - {A} == map[B := TEXT, C := Str([early])];
    NamelessReady();
  }

  lemma NamelessReady()
    ensures A in Ready(RENDERED_LATE)
  {}

  lemma SeenEarly(render: Renderer, three: Token, early: Token)
    requires Conservative(render) && render(NAMELESS, []) == Some([three])
            && render(USE, [Some(Str([NAMELESS]))]) == Some([early])
    requires early.Text?
    ensures Resolved(render, RENDERED_LATE, map[A := Str([three]), B := TEXT, C := Str([early])])
  {
    var t1: Names, t2: Names := map[B := TEXT, C := Str([early])], map[C := Str([early])];
    NamelessFirst(render, three, early);
    SubstUntouched(render, Str([early]), map[B := TEXT]);
    StepTo(render, t1, map[A := Str([three])], B, t2, map[A := Str([three]), B := TEXT]);
    StepTo(render, t2, map[A := Str([three]), B := TEXT], C, map[],
           map[A := Str([three]), B := TEXT, C := Str([early])]);
    ThreeSteps(render, RENDERED_LATE, [A, B, C], t1, map[A := Str([three])], t2, map[A := Str([three]), B := TEXT],
               map[A := Str([three]), B := TEXT, C := Str([early])]);
  }

  lemma TextFirst(render: Renderer, three: Token)
    requires Conservative(render) && render(NAMELESS, []) == Some([three]) && render(USE, [None]) == None
    ensures Step(render, RENDERED_LATE, map[], B, map[A := Str([three]), C := Str([USE])], map[B := TEXT])
  {
    NamelessRenders(render, map[B := TEXT]);
    OneToken(render, NAMELESS, map[B := TEXT]);
    RenderedOne(render, USE, A, B, TEXT);
    OneToken(render, USE, map[B := TEXT]);
    StepTo(render, RENDERED_LATE, map[], B, map[A := Str([three]), C := Str([USE])], map[B := TEXT]);
  }

  lemma SeenLate(render: Renderer, three: Token, late: Token)
    requires Conservative(render) && render(NAMELESS, []) == Some([three])
            && render(USE, [Some(Str([three]))]) == Some([late])
    requires three.Text? && late.Text? && render(USE, [None]) == None
    ensures Resolved(render, RENDERED_LATE, map[B := TEXT, A := Str([three]), C := Str([late])])
  {
    var t1: Names, t2: Names := map[A := Str([three]), C := Str([USE])], map[C := Str([late])];
    TextFirst(render, three);
    RenderedOne(render, USE, A, A, Str([three]));
    OneToken(render, USE, map[A := Str([three])]);
    StepTo(render, t1, map[B := TEXT], A, t2, map[B := TEXT, A := Str([three])]);
    StepTo(render, t2, map[B := TEXT, A := Str([three])], C, map[],
           map[B := TEXT, A := Str([three]), C := Str([late])]);
    ThreeSteps(render, RENDERED_LATE, [B, A, C], t1, map[B := TEXT], t2, map[B := TEXT, A := Str([three])],
               map[B := TEXT, A := Str([three]), C := Str([late])]);
  }

  // ----- a template over a constant that is not known yet, and another constant -----

  const ONE := Str([Text(11)])

  function Beside(c: Value): Names {
    map[A := ONE, B := TEXT, C := c]
  }

  /** Its constant goes in first. */
  lemma KnownFirst(render: Renderer, c: Value, out: seq<Token>)
    requires Conservative(render) && TokenTemplates(out) == {} && Subst(render, c, map[A := ONE]) == Str(out)
    ensures Resolved(render, Beside(c), map[A := ONE, B := TEXT, C := Str(out)])
  {
    var t1: Names, t2: Names := map[B := TEXT, C := Str(out)], map[C := Str(out)];
    SubstUntouched(render, TEXT, map[A := ONE]);
    SubstUntouched(render, Str(out), map[B := TEXT]);
    StepTo(render, Beside(c), map[], A, t1, map[A := ONE]);
    StepTo(render, t1, map[A := ONE], B, t2, map[A := ONE, B := TEXT]);
    StepTo(render, t2, map[A := ONE, B := TEXT], C, map[], map[A := ONE, B := TEXT, C := Str(out)]);
    ThreeSteps(render, Beside(c), [A, B, C], t1, map[A := ONE], t2, map[A := ONE, B := TEXT],
               map[A := ONE, B := TEXT, C := Str(out)]);
  }

  /** The other constant goes in first: what is printed then stays for good. */
  lemma OtherFirst(render: Renderer, c: Value, out: seq<Token>)
    requires Conservative(render) && TokenTemplates(out) == {} && Subst(render, c, map[B := TEXT]) == Str(out)
    ensures Resolved(render, Beside(c), map[B := TEXT, A := ONE, C := Str(out)])
  {
    var t1: Names, t2: Names := map[A := ONE, C := Str(out)], map[C := Str(out)];
    SubstUntouched(render, ONE, map[B := TEXT]);
    SubstUntouched(render, Str(out), map[A := ONE]);
    StepTo(render, Beside(c), map[], B, t1, map[B := TEXT]);
    StepTo(render, t1, map[B := TEXT], A, t2, map[B := TEXT, A := ONE]);
    StepTo(render, t2, map[B := TEXT, A := ONE], C, map[], map[B := TEXT, A := ONE, C := Str(out)]);
    ThreeSteps(render, Beside(c), [B, A, C], t1, map[B := TEXT], t2, map[B := TEXT, A := ONE],
               map[B := TEXT, A := ONE, C := Str(out)]);
  }

  lemma BesideIsAcyclic(c: Value)
    requires References(c) == {A}
    ensures !Cyclic(RefEdges(Beside(c)))
  {
    assert References(ONE) == {} && References(TEXT) == {};
    RankedIsAcyclic(RefEdges(Beside(c)), map[A := 0, B := 0, C := 1]);
  }

  lemma BesideTemplates(c: Value)
    ensures MapTemplates(Beside(c)) == Templates(c)
  {
    MapTemplatesHave(Beside(c), C);
    assert Templates(Beside(c)[A]) == {} && Templates(Beside(c)[B]) == {};
  }

  /** `${'yes' if a == '1' else 'no'}`. */
  const COND := Tpl([A], 7)
  const CHOICE: Names := Beside(Str([COND]))

  /** An undefined value may be compared, and equals nothing. */
  ghost predicate Chooses(render: Renderer, yes: Token, no: Token) {
    render(COND, [Some(ONE)]) == Some([yes]) && render(COND, [None]) == Some([no]) && yes.Text? && no.Text? && yes != no
  }

  /** Its constant first, the condition is answered rightly. */
  lemma ChoiceIsYes(render: Renderer, yes: Token, no: Token)
    requires Conservative(render) && Chooses(render, yes, no)
    ensures Resolved(render, CHOICE, map[A := ONE, B := TEXT, C := Str([yes])])
  {
    RenderedOne(render, COND, A, A, ONE);
    OneToken(render, COND, map[A := ONE]);
    KnownFirst(render, Str([COND]), [yes]);
  }

  /** The other constant first, it is answered while its own is undefined, for good. */
  lemma ChoiceIsNo(render: Renderer, yes: Token, no: Token)
    requires Conservative(render) && Chooses(render, yes, no)
    ensures Resolved(render, CHOICE, map[B := TEXT, A := ONE, C := Str([no])])
  {
    RenderedOne(render, COND, A, B, TEXT);
    OneToken(render, COND, map[B := TEXT]);
    OtherFirst(render, Str([COND]), [no]);
  }

  /** Only the waiting is missing: the pool is acyclic, and its one template is a string by itself that names one
      constant. */
  lemma ChoiceDoesNotWait(render: Renderer, yes: Token, no: Token)
    requires Chooses(render, yes, no)
    ensures !Waiting(render, CHOICE) && Single(CHOICE) && !Cyclic(RefEdges(CHOICE))
    ensures forall k :: k in CHOICE ==> AllAnchored(CHOICE[k])
  {
    assert NamesOf(COND) == {A} && Templates(Str([COND])) == {COND};
    BesideTemplates(Str([COND]));
    BesideIsAcyclic(Str([COND]));
    RenderedOne(render, COND, A, B, TEXT);
    assert !Complete(COND, CHOICE.Keys, map[B := TEXT]);
    assert !Waits(render, COND, CHOICE.Keys);
  }

  // ----- a constant that is named like a builtin -----

  /** `no ${id}`. */
  const NUMBERED := Str([Text(13), NameOf(A)])

  /** The name prints its value, or the builtin. */
  ghost predicate NamesABuiltin(render: Renderer, value: Token, builtin: Token) {
    && render(NameOf(A), [Some(ONE)]) == Some([value]) && render(NameOf(A), [None]) == Some([builtin])
    && value.Text? && builtin.Text? && value != builtin
  }

  /** The constant first, its value is printed. */
  lemma ValueIsPrinted(render: Renderer, value: Token, builtin: Token)
    requires Conservative(render) && NamesABuiltin(render, value, builtin)
    ensures Resolved(render, Beside(NUMBERED), map[A := ONE, B := TEXT, C := Str([Text(13), value])])
  {
    RenderedOne(render, NameOf(A), A, A, ONE);
    TwoTokens(render, Text(13), NameOf(A), map[A := ONE]);
    KnownFirst(render, NUMBERED, [Text(13), value]);
  }

  /** Another constant first, the builtin is printed, for good: with plain names only, the order decides. */
  lemma BuiltinIsPrinted(render: Renderer, value: Token, builtin: Token)
    requires Conservative(render) && NamesABuiltin(render, value, builtin)
    ensures var pool: Names := map[B := TEXT, A := ONE, C := Str([Text(13), builtin])];
            Resolved(render, Beside(NUMBERED), pool) && !IsMeaning(render, Beside(NUMBERED), pool)
  {
    RenderedOne(render, NameOf(A), A, B, TEXT);
    TwoTokens(render, Text(13), NameOf(A), map[B := TEXT]);
    OtherFirst(render, NUMBERED, [Text(13), builtin]);
    var pool: Names := map[B := TEXT, A := ONE, C := Str([Text(13), builtin])];
    assert Args([A], pool) == [Some(ONE)];
    TwoTokens(render, Text(13), NameOf(A), pool);
    assert Subst(render, NUMBERED, pool) == Str([Text(13), value]);
    assert Str([Text(13), value]).tokens[1] != pool[C].tokens[1];
    assert Beside(NUMBERED)[C] == NUMBERED;
  }

  /** It is an acyclic pool of one plain name in a string with text in it. */
  lemma NumberedIsPlain()
    ensures !Cyclic(RefEdges(Beside(NUMBERED))) && MapTemplates(Beside(NUMBERED)) == {NameOf(A)}
    ensures forall k :: k in Beside(NUMBERED) ==> AllAnchored(Beside(NUMBERED)[k])
  {
    assert Templates(NUMBERED) == {NameOf(A)} && NamesOf(NameOf(A)) == {A};
    BesideTemplates(NUMBERED);
    BesideIsAcyclic(NUMBERED);
    assert Text(13) in NUMBERED.tokens;
  }
}
