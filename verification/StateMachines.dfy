/** The table-driven engine shared by the lighting, indicator, door and power machines. */
module StateMachines {
  import opened Integers

  datatype Guard<!C> = Always | When(test: C -> bool)

  datatype Action<!C> = Nothing | Do(run: C -> C)

  datatype Row<S, E, !C> = Row(from: S, fromAny: bool, event: E, to: S, guard: Guard<C>, action: Action<C>)

  datatype Machine<S> = Machine(state: S, transitions: u32, blocked: u32)

  /** What a table makes of an event. */
  datatype Effect<S, C> = Ignored | Refused | Moved(to: S, ctx: C)

  predicate Matches<S(==), E(==), C>(row: Row<S, E, C>, state: S, event: E) {
    row.event == event && (row.fromAny || row.from == state)
  }

  predicate Allows<C>(guard: Guard<C>, c: C) {
    guard.When? ==> guard.test(c)
  }

  function Acted<C>(action: Action<C>, c: C): C {
    if action.Do? then action.run(c) else c
  }

  function Fire<S, E, C>(row: Row<S, E, C>, c: C): Effect<S, C> {
    if Allows(row.guard, c) then Moved(row.to, Acted(row.action, c)) else Refused
  }

  /** The first matching row from i on decides, and a refusing guard ends the search. */
  function Lookup<S(==), E(==), C>(table: seq<Row<S, E, C>>, i: nat, state: S, event: E, c: C): Effect<S, C>
    requires i <= |table|
    decreases |table| - i
  {
    if i == |table| then Ignored
    else if Matches(table[i], state, event) then Fire(table[i], c)
    else Lookup(table, i + 1, state, event, c)
  }

  /** One row of the search. */
  lemma LookupRow<S, E, C>(table: seq<Row<S, E, C>>, i: nat, state: S, event: E, c: C)
    requires i < |table|
    ensures Lookup(table, i, state, event, c)
         == if Matches(table[i], state, event) then Fire(table[i], c) else Lookup(table, i + 1, state, event, c)
  {
  }

  lemma LookupEnds<S, E, C>(table: seq<Row<S, E, C>>, state: S, event: E, c: C)
    ensures Lookup(table, |table|, state, event, c) == Ignored
  {
  }

  function Applied<S, C>(m: Machine<S>, e: Effect<S, C>): Machine<S> {
    match e
    case Ignored => m
    case Refused => m.(blocked := Wrap32(m.blocked + 1))
    case Moved(to, _) => m.(state := to, transitions := Wrap32(m.transitions + 1))
  }

  function Context<S, C>(e: Effect<S, C>, c: C): C {
    if e.Moved? then e.ctx else c
  }

  class Fsm<S(==), E(==), !C> {
    const table: seq<Row<S, E, C>>
    var state: S
    var transitions: u32
    var blocked: u32

    ghost function Now(): Machine<S>
      reads this
    {
      Machine(state, transitions, blocked)
    }

    constructor (rows: seq<Row<S, E, C>>, initial: S)
      ensures table == rows && Now() == Machine(initial, 0, 0)
    {
      table := rows;
      state := initial;
      transitions := 0;
      blocked := 0;
    }

    /** Offers an event; `after` is the context a firing action leaves. */
    method Dispatch(event: E, context: C) returns (fired: bool, after: C)
      modifies this
      ensures var e := Lookup(table, 0, old(state), event, context);
              && Now() == Applied(old(Now()), e)
              && fired == e.Moved?
              && after == Context(e, context)
    {
      after := context;
      for i := 0 to |table|
        invariant Now() == old(Now()) && after == context
        invariant Lookup(table, 0, state, event, context) == Lookup(table, i, state, event, context)
      {
        var t := table[i];
        if t.event != event { continue; }
        if !t.fromAny && t.from != state { continue; }
        if t.guard.When? && !t.guard.test(context) {
          blocked := Wrap32(blocked + 1);
          return false, context;
        }
        state := t.to;
        transitions := Wrap32(transitions + 1);
        if t.action.Do? {
          after := t.action.run(context);
        }
        return true, after;
      }
      fired := false;
    }

    method SetState(s: S)
      modifies this
      ensures Now() == old(Now()).(state := s)
    {
      state := s;
    }
  }

  // ------------------------------------------------------------------ generic laws

  /** Row i decides when it is the first that matches. */
  ghost predicate FirstMatch<S, E, C>(table: seq<Row<S, E, C>>, state: S, event: E, i: nat) {
    && i < |table| && Matches(table[i], state, event)
    && forall j :: 0 <= j < i ==> !Matches(table[j], state, event)
  }

  lemma {:induction false} FirstMatchDecides<S, E, C>(
      table: seq<Row<S, E, C>>, from: nat, state: S, event: E, c: C, i: nat)
    requires FirstMatch(table, state, event, i) && from <= i
    ensures Lookup(table, from, state, event, c) == Fire(table[i], c)
    decreases i - from
  {
    if from < i {
      FirstMatchDecides(table, from + 1, state, event, c, i);
    }
  }

  lemma {:induction false} NoMatchIgnores<S, E, C>(table: seq<Row<S, E, C>>, from: nat, state: S, event: E, c: C)
    requires from <= |table| && forall j :: from <= j < |table| ==> !Matches(table[j], state, event)
    ensures Lookup(table, from, state, event, c) == Ignored
    decreases |table| - from
  {
    if from < |table| {
      NoMatchIgnores(table, from + 1, state, event, c);
    }
  }

  /** Every row that leads into s carries a guard that refuses in context c. */
  ghost predicate Barred<S, E, C>(table: seq<Row<S, E, C>>, s: S, c: C) {
    forall i :: 0 <= i < |table| && table[i].to == s ==> !Allows(table[i].guard, c)
  }

  /** No event enters a state all of whose entering rows refuse, whatever the order of the
      table: a refused event cannot reach a later row. */
  lemma {:induction false} BarredIsNotEntered<S, E, C>(
      table: seq<Row<S, E, C>>, from: nat, state: S, event: E, c: C, s: S)
    requires from <= |table| && Barred(table, s, c)
    ensures var e := Lookup(table, from, state, event, c); e.Moved? ==> e.to != s
    decreases |table| - from
  {
    if from < |table| {
      BarredIsNotEntered(table, from + 1, state, event, c, s);
    }
  }

  // --------------------------------------------------------------------- counters

  /** A machine and its context after a series of events. */
  function Offered<S(==), E(==), C>(table: seq<Row<S, E, C>>, m: Machine<S>, c: C, events: seq<E>): (Machine<S>, C) {
    if events == [] then (m, c)
    else
      var (m1, c1) := Offered(table, m, c, events[..|events| - 1]);
      var e := Lookup(table, 0, m1.state, events[|events| - 1], c1);
      (Applied(m1, e), Context(e, c1))
  }

  /** How the last of the events fared. */
  function Fate<S(==), E(==), C>(table: seq<Row<S, E, C>>, m: Machine<S>, c: C, events: seq<E>): Effect<S, C>
    requires events != []
  {
    var (m1, c1) := Offered(table, m, c, events[..|events| - 1]);
    Lookup(table, 0, m1.state, events[|events| - 1], c1)
  }

  function Moves<S(==), E(==), C>(table: seq<Row<S, E, C>>, m: Machine<S>, c: C, events: seq<E>): nat {
    if events == [] then 0
    else
      Moves(table, m, c, events[..|events| - 1]) + match Fate(table, m, c, events) case Moved(_, _) => 1 case _ => 0
  }

  function Refusals<S(==), E(==), C>(table: seq<Row<S, E, C>>, m: Machine<S>, c: C, events: seq<E>): nat {
    if events == [] then 0
    else
      Refusals(table, m, c, events[..|events| - 1]) + match Fate(table, m, c, events) case Refused => 1 case _ => 0
  }

  /** Over any series of events a machine counts the transitions that fired and the guards
      that refused, each modulo 2^32. */
  lemma {:induction false} CountersCount<S, E, C>(table: seq<Row<S, E, C>>, m: Machine<S>, c: C, events: seq<E>)
    ensures var r := Offered(table, m, c, events).0;
            && r.transitions == Wrap32(m.transitions + Moves(table, m, c, events))
            && r.blocked == Wrap32(m.blocked + Refusals(table, m, c, events))
  {
    hide Lookup, Wrap32;
    if events == [] {
      NothingWraps(m.transitions);
      NothingWraps(m.blocked);
    } else {
      var before := events[..|events| - 1];
      CountersCount(table, m, c, before);
      OneMoreWraps(m.transitions + Moves(table, m, c, before));
      OneMoreWraps(m.blocked + Refusals(table, m, c, before));
    }
  }

  lemma NothingWraps(x: u32)
    ensures Wrap32(x) == x
  {
  }

  lemma OneMoreWraps(x: nat)
    ensures Wrap32(Wrap32(x) + 1) == Wrap32(x + 1)
  {
    ModuloAdds(U32_LIMIT, x, 1);
  }
}
