/** requests_tracker/states.py and models.py: compare-and-swap on the state of a record. */
module Transitions {
  import opened Options

  datatype State = Created | InProgress | Success | Failure

  const ARCHIVED_STATES := {Success, Failure}

  function Targets(from: State): set<State> {
    match from
    case Created => {InProgress}
    case InProgress => {Success, Failure}
    case Success => {}
    case Failure => {}
  }

  predicate CanTransit(from: State, to: State) {
    to in Targets(from)
  }

  /** The three moves there are. */
  predicate Permitted(from: State, to: State) {
    (from, to) in {(Created, InProgress), (InProgress, Success), (InProgress, Failure)}
  }

  datatype Verdict = Done | Conflicted | NotAllowed

  /** The row in the database. */
  class Row {
    var state: State

    constructor ()
      ensures state == Created
    {
      state := Created;
    }
  }

  /** A client's copy of the record. */
  class Record {
    const row: Row
    var state: State

    constructor (row: Row)
      ensures this.row == row && state == row.state
    {
      this.row := row;
      state := row.state;
    }

    /** transit: one atomic step. */
    method Transit(to: State) returns (verdict: Verdict)
      modifies this`state, row`state
      ensures verdict == Judge(old(row.state), old(state), to)
      ensures verdict.NotAllowed? <==> !Permitted(old(state), to)
      ensures verdict.Done? <==> Permitted(old(state), to) && old(row.state) == old(state)
      ensures if verdict.Done? then row.state == to && state == to
              else row.state == old(row.state) && state == old(state)
    {
      if !CanTransit(state, to) {
        return NotAllowed;
      }
      if row.state != state {
        return Conflicted;
      }
      row.state := to;
      state := to;
      return Done;
    }
  }

  /** Not allowed from the copy's state; conflicted when the copy is stale. */
  function Judge(stored: State, copy: State, to: State): Verdict {
    if !CanTransit(copy, to) then NotAllowed else if stored != copy then Conflicted else Done
  }

  // ----- any number of clients -----

  datatype Event = Load(client: Id) | Transit(client: Id, to: State)

  /** The row, the clients' copies, and the transitions that succeeded so far. */
  datatype World = World(stored: State, copies: map<Id, State>, made: seq<(State, State)>)

  const NEW_RECORD := World(Created, map[], [])

  function Next(w: World, e: Event): World {
    match e
    case Load(client) => w.(copies := w.copies[client := w.stored])
    case Transit(client, to) =>
      if client !in w.copies || !Judge(w.stored, w.copies[client], to).Done? then w
      else World(to, w.copies[client := to], w.made + [(w.copies[client], to)])
  }

  function Run(events: seq<Event>): World {
    if events == [] then NEW_RECORD else Next(Run(events[..|events| - 1]), events[|events| - 1])
  }

  /** The ways through the states. */
  predicate Path(made: seq<(State, State)>) {
    || made == []
    || made == [(Created, InProgress)]
    || made == [(Created, InProgress), (InProgress, Success)]
    || made == [(Created, InProgress), (InProgress, Failure)]
  }

  /** The states the record has held. */
  function Held(made: seq<(State, State)>): set<State> {
    {Created} + set i | 0 <= i < |made| :: made[i].1
  }

  ghost predicate Sound(w: World) {
    && Path(w.made)
    && w.stored == (if w.made == [] then Created else w.made[|w.made| - 1].1)
    && forall c :: c in w.copies ==> w.copies[c] in Held(w.made)
  }

  lemma HeldGrows(made: seq<(State, State)>, step: (State, State))
    ensures Held(made + [step]) == Held(made) + {step.1}
  {
    assert forall i :: 0 <= i < |made| ==> (made + [step])[i] == made[i];
    assert (made + [step])[|made|] == step;
  }

  lemma LastIsHeld(made: seq<(State, State)>)
    requires made != []
    ensures made[|made| - 1].1 in Held(made)
  {}

  lemma NextSound(w: World, e: Event)
    requires Sound(w)
    ensures Sound(Next(w, e))
  {
    match e
    case Load(client) =>
      if w.made != [] {
        LastIsHeld(w.made);
      }
    case Transit(client, to) =>
      if client in w.copies && Judge(w.stored, w.copies[client], to).Done? {
        HeldGrows(w.made, (w.copies[client], to));
        PathGrows(w.made, w.stored, to);
      }
  }

  lemma PathGrows(made: seq<(State, State)>, from: State, to: State)
    requires Path(made) && from == (if made == [] then Created else made[|made| - 1].1) && CanTransit(from, to)
    ensures Path(made + [(from, to)])
  {}

  /** Every run drives the record along one of the paths; each copy is a state that the record has held. */
  lemma {:induction false} RunSound(events: seq<Event>)
    ensures Sound(Run(events))
  {
    if events != [] {
      RunSound(events[..|events| - 1]);
      NextSound(Run(events[..|events| - 1]), events[|events| - 1]);
    }
  }

  /** At most one transition ever succeeds from each state, whoever asks. */
  lemma OneSuccessPerState(events: seq<Event>, i: nat, j: nat)
    requires i < |Run(events).made| && j < |Run(events).made| && Run(events).made[i].0 == Run(events).made[j].0
    ensures i == j
  {
    RunSound(events);
  }

  lemma {:induction false} RunExtends(events: seq<Event>, more: seq<Event>)
    ensures Run(events).made <= Run(events + more).made
  {
    if more == [] {
      assert events + more == events;
    } else {
      assert (events + more)[..|events + more| - 1] == events + more[..|more| - 1];
      RunExtends(events, more[..|more| - 1]);
    }
  }

  /** Nothing leaves an archived state. */
  lemma ArchivedIsFinal(events: seq<Event>, more: seq<Event>)
    requires Run(events).stored in ARCHIVED_STATES
    ensures Run(events + more).stored == Run(events).stored && Run(events + more).made == Run(events).made
  {
    RunSound(events);
    RunSound(events + more);
    RunExtends(events, more);
  }

  /** The archived states are those that no permitted move leaves. */
  lemma ArchivedIff(state: State)
    ensures state in ARCHIVED_STATES <==> forall to :: !Permitted(state, to)
  {
    assert Permitted(Created, InProgress) && Permitted(InProgress, Success);
  }

  /** A conflict tells that another transition succeeded since the copy was taken. */
  lemma ConflictMeansMoved(events: seq<Event>, client: Id, to: State)
    requires var w := Run(events); client in w.copies && Judge(w.stored, w.copies[client], to).Conflicted?
    ensures var w := Run(events); exists i :: 0 <= i < |w.made| && w.made[i].0 == w.copies[client]
  {
    RunSound(events);
    var w := Run(events);
    if w.copies[client] == Created {
      assert w.made[0].0 == Created;
    } else {
      assert w.copies[client] == InProgress && |w.made| == 2;
      assert w.made[1].0 == InProgress;
    }
  }

  lemma RunSnoc(events: seq<Event>, e: Event)
    ensures Run(events + [e]) == Next(Run(events), e)
  {
    assert (events + [e])[..|events|] == events;
  }

  /** On a fresh copy exactly the permitted moves are made, and row and copy move together. */
  lemma FreshTransit(events: seq<Event>, client: Id, to: State)
    ensures var w, w' := Run(events), Run(events + [Load(client)] + [Transit(client, to)]);
            if Permitted(w.stored, to)
            then w' == World(to, w.copies[client := to], w.made + [(w.stored, to)])
            else w' == World(w.stored, w.copies[client := w.stored], w.made)
  {
    RunSnoc(events, Load(client));
    RunSnoc(events + [Load(client)], Transit(client, to));
    var w := Run(events);
    assert w.copies[client := w.stored][client := to] == w.copies[client := to];
  }

  /** On a stale copy nothing is ever done. */
  lemma StaleTransit(events: seq<Event>, client: Id, to: State)
    requires client in Run(events).copies && Run(events).copies[client] != Run(events).stored
    ensures Run(events + [Transit(client, to)]) == Run(events)
  {
    RunSnoc(events, Transit(client, to));
  }
}
