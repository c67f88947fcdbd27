/** pipeline/models.py: PipelineInstance.start, a locked check-and-set around an unlocked run. */
module Starts {
  import opened Options
  import opened Walks

  datatype RunOutcome = Succeeds | Fails | Raises

  datatype Result = Ok | AlreadyStarted | RunFailed | RunRaised | NotParsed

  class PipelineInstance {
    var isStarted: bool
    var executor: Option<Id>

    constructor ()
      ensures !isStarted && executor == None
    {
      isStarted, executor := false, None;
    }

    /** The locked block: refuses a started instance; an error while parsing rolls the block back. */
    method CheckAndSet(who: Id, parses: bool) returns (result: Option<Result>)
      modifies this
      ensures result == Refusal(old(isStarted), parses)
      ensures if result == None then isStarted && executor == Some(who)
              else isStarted == old(isStarted) && executor == old(executor)
    {
      if isStarted {
        return Some(AlreadyStarted);
      }
      if !parses {
        return Some(NotParsed);
      }
      isStarted, executor := true, Some(who);
      return None;
    }

    /** The second locked block. */
    method Reset()
      modifies this
      ensures !isStarted && executor == None
    {
      isStarted, executor := false, None;
    }

    /** start, without interference from other callers. */
    method Start(who: Id, parses: bool, outcome: RunOutcome) returns (result: Result)
      modifies this
      ensures result.AlreadyStarted? <==> old(isStarted)
      ensures result.NotParsed? <==> !old(isStarted) && !parses
      ensures !old(isStarted) ==> (isStarted <==> parses && !outcome.Fails?)
      ensures !old(isStarted) && parses ==> (result.Ok? <==> outcome.Succeeds?)
      ensures !old(isStarted) && parses ==> (result.RunFailed? <==> outcome.Fails?)
      ensures old(isStarted) ==> isStarted && executor == old(executor)
      ensures !old(isStarted) && !parses ==> executor == old(executor)
      ensures !old(isStarted) && parses ==> executor == if outcome.Fails? then None else Some(who)
    {
      var refusal := CheckAndSet(who, parses);
      if refusal != None {
        return refusal.value;
      }
      match outcome
      case Succeeds => return Ok;
      case Raises => return RunRaised;
      case Fails =>
        Reset();
        return RunFailed;
    }
  }

  function Refusal(started: bool, parses: bool): Option<Result> {
    if started then Some(AlreadyStarted) else if !parses then Some(NotParsed) else None
  }

  // ----- any number of interleaved calls -----

  /** Where a call is: in flight from winning the locked check until it returns or has reset the instance. */
  datatype Phase = Running | Failing | Returned(result: Result)

  datatype Event = Enter(call: Id, parses: bool) | Finish(call: Id, outcome: RunOutcome) | RollBack(call: Id)

  datatype World = World(started: bool, calls: map<Id, Phase>)

  const NEW_INSTANCE := World(false, map[])

  function Next(w: World, e: Event): World {
    match e
    case Enter(c, parses) =>
      if c in w.calls then w else
      (match Refusal(w.started, parses)
       case Some(r) => w.(calls := w.calls[c := Returned(r)])
       case None => World(true, w.calls[c := Running]))
    case Finish(c, outcome) =>
      if c !in w.calls || w.calls[c] != Running then w else
      (match outcome
       case Succeeds => w.(calls := w.calls[c := Returned(Ok)])
       case Raises => w.(calls := w.calls[c := Returned(RunRaised)])
       case Fails => w.(calls := w.calls[c := Failing]))
    case RollBack(c) =>
      if c !in w.calls || w.calls[c] != Failing then w else World(false, w.calls[c := Returned(RunFailed)])
  }

  function Run(events: seq<Event>): World {
    if events == [] then NEW_INSTANCE else Next(Run(events[..|events| - 1]), events[|events| - 1])
  }

  predicate InFlight(p: Phase) {
    p.Running? || p.Failing?
  }

  predicate Succeeded(p: Phase) {
    p == Returned(Ok)
  }

  predicate Crashed(p: Phase) {
    p == Returned(RunRaised)
  }

  /** The calls that won the check and did not reset the instance. */
  function Holders(w: World): set<Id> {
    set c | c in w.calls && (InFlight(w.calls[c]) || Succeeded(w.calls[c]) || Crashed(w.calls[c]))
  }

  /** Started exactly while somebody holds the instance, and never two at once. */
  ghost predicate Sound(w: World) {
    && (w.started <==> Holders(w) != {})
    && forall c, d :: c in Holders(w) && d in Holders(w) ==> c == d
  }

  lemma NextSound(w: World, e: Event)
    requires Sound(w)
    ensures Sound(Next(w, e))
  {
    var w' := Next(w, e);
    match e
    case Enter(c, parses) =>
      if c !in w.calls {
        assert Holders(w') == if Refusal(w.started, parses) == None then Holders(w) + {c} else Holders(w);
      }
    case Finish(c, outcome) =>
      assert Holders(w') == Holders(w);
    case RollBack(c) =>
      if c in w.calls && w.calls[c] == Failing {
        assert c in Holders(w);
        assert Holders(w') == Holders(w) - {c};
        assert forall d :: d in Holders(w) ==> d == c;
        assert Holders(w') == {};
      }
  }

  lemma {:induction false} RunSound(events: seq<Event>)
    ensures Sound(Run(events))
  {
    if events == [] {
      assert Holders(NEW_INSTANCE) == {};
    } else {
      RunSound(events[..|events| - 1]);
      NextSound(Run(events[..|events| - 1]), events[|events| - 1]);
    }
  }

  /** Whatever the interleaving, at most one call is in flight, at most one has succeeded, and not both. */
  lemma AtMostOne(events: seq<Event>, c: Id, d: Id)
    requires var w := Run(events);
             c in w.calls && d in w.calls
             && (InFlight(w.calls[c]) || Succeeded(w.calls[c])) && (InFlight(w.calls[d]) || Succeeded(w.calls[d]))
    ensures c == d
  {
    RunSound(events);
    assert c in Holders(Run(events)) && d in Holders(Run(events));
  }

  ghost predicate SomeCall(w: World, p: Phase -> bool) {
    exists c :: c in w.calls && p(w.calls[c])
  }

  /** Started exactly when a call is in flight or has succeeded, unless the run of some call raised: the flag is
      not reset then. */
  lemma StartedIff(events: seq<Event>)
    ensures var w := Run(events);
            (w.started <==> SomeCall(w, InFlight) || SomeCall(w, Succeeded)) <==> !SomeCall(w, Crashed)
  {
    var w := Run(events);
    RunSound(events);
    if SomeCall(w, Crashed) {
      var c :| c in w.calls && Crashed(w.calls[c]);
      assert c in Holders(w);
      forall d | d in w.calls ensures !InFlight(w.calls[d]) && !Succeeded(w.calls[d]) {
        if d != c {
          assert d !in Holders(w);
        }
      }
    } else if w.started {
      StartedHasHolder(w);
    } else {
      forall d | d in w.calls ensures !InFlight(w.calls[d]) && !Succeeded(w.calls[d]) {
        assert d !in Holders(w);
      }
    }
  }

  lemma StartedHasHolder(w: World)
    requires Sound(w) && w.started
    ensures SomeCall(w, InFlight) || SomeCall(w, Succeeded) || SomeCall(w, Crashed)
  {
    var c := AnElement(Holders(w));
    assert InFlight(w.calls[c]) || Succeeded(w.calls[c]) || Crashed(w.calls[c]);
  }

  /** A run that raises leaves the instance started for good. */
  lemma RaisingSticks(more: seq<Event>)
    ensures Run([Enter(0, true), Finish(0, Raises)] + more).started
  {
    var events := [Enter(0, true), Finish(0, Raises)];
    assert events[..1] == [Enter(0, true)] && events[..1][..0] == [];
    assert Crashed(Run(events).calls[0]);
    CrashStays(events, more, 0);
    RunSound(events + more);
    assert 0 in Holders(Run(events + more));
  }

  lemma {:induction false} CrashStays(events: seq<Event>, more: seq<Event>, c: Id)
    requires c in Run(events).calls && Crashed(Run(events).calls[c])
    ensures c in Run(events + more).calls && Crashed(Run(events + more).calls[c])
  {
    if more == [] {
      assert events + more == events;
    } else {
      assert (events + more)[..|events + more| - 1] == events + more[..|more| - 1];
      CrashStays(events, more[..|more| - 1], c);
    }
  }

  lemma RunSnoc(events: seq<Event>, e: Event)
    ensures Run(events + [e]) == Next(Run(events), e)
  {
    assert (events + [e])[..|events|] == events;
  }

  /** A run that succeeds is reported as such and never rolled back: the instance stays started, whatever follows. */
  lemma {:induction false} SuccessSticks(events: seq<Event>, c: Id, more: seq<Event>)
    requires c in Run(events).calls && Run(events).calls[c] == Running
    ensures var w := Run(events + [Finish(c, Succeeds)] + more);
            c in w.calls && w.calls[c] == Returned(Ok) && w.started
  {
    var done := events + [Finish(c, Succeeds)];
    if more == [] {
      assert done + [] == done;
      RunSnoc(events, Finish(c, Succeeds));
    } else {
      assert (done + more)[..|done + more| - 1] == done + more[..|more| - 1];
      SuccessSticks(events, c, more[..|more| - 1]);
    }
    RunSound(done + more);
    assert c in Holders(Run(done + more));
  }

  /** The events of one call. */
  function CallOf(c: Id, parses: bool, outcome: RunOutcome): seq<Event> {
    [Enter(c, parses), Finish(c, outcome), RollBack(c)]
  }

  /** A call that nobody interferes with does what start does, whatever happened before: its result is the only new
      one, and it leaves the flag as start does. */
  lemma CallIsStart(events: seq<Event>, c: Id, parses: bool, outcome: RunOutcome) returns (result: Result)
    requires c !in Run(events).calls
    ensures var w, w' := Run(events), Run(events + CallOf(c, parses, outcome));
            && w'.calls == w.calls[c := Returned(result)]
            && (result.AlreadyStarted? <==> w.started)
            && (result.NotParsed? <==> !w.started && !parses)
            && (!w.started ==> (w'.started <==> parses && !outcome.Fails?))
            && (!w.started && parses ==> (result.Ok? <==> outcome.Succeeds?))
            && (!w.started && parses ==> (result.RunFailed? <==> outcome.Fails?))
            && (w.started ==> w'.started)
  {
    var entered, finished := events + [Enter(c, parses)], events + [Enter(c, parses)] + [Finish(c, outcome)];
    RunSnoc(events, Enter(c, parses));
    RunSnoc(entered, Finish(c, outcome));
    RunSnoc(finished, RollBack(c));
    assert finished + [RollBack(c)] == events + CallOf(c, parses, outcome);
    result := Run(finished + [RollBack(c)]).calls[c].result;
  }
}
